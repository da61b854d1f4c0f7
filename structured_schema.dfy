/**
 * The Vespa schema that `StructuredVespaIndex.generate_schema` writes for a structured
 * Marqo index, and the Vespa-level field names it records on the index's fields on the way.
 */
module StructuredSchema {
  import opened Wrappers
  import Seqs
  import opened Decimal
  import Filtering

  datatype FieldType = Text | Bool | Int | Float | ArrayText | ArrayInt | ArrayFloat | ImagePointer | MultimodalCombination
  datatype FieldFeature = LexicalSearch | Filter | ScoreModifier
  datatype DistanceMetric = Euclidean | Angular | DotProduct | PrenormalizedAngular | Geodegrees | Hamming
  datatype IndexType = Structured | SemiStructured | Unstructured

  /** The errors the structured index raises. */
  datatype SchemaError =
    | WrongIndexType(found: IndexType)        // ValueError from _validate_index_type
    | UnknownMarqoType(fieldType: FieldType)  // InternalError from the type lookups
    | InvalidFieldName(name: string)          // InvalidFieldNameError
    | InvalidDataType(name: string)           // InvalidDataTypeError
    | InvalidTensorField(name: string)        // InternalError from _verify_marqo_tensor_field
    | MissingKey(key: string)                 // Python's KeyError
    | NotAMapping(name: string)               // Python's TypeError/AttributeError on a value of the wrong shape

  const LexicalPrefix := "marqo__lexical_"
  const FilterPrefix := "marqo__filter_"
  const ChunksPrefix := "marqo__chunks_"
  const EmbeddingsPrefix := "marqo__embeddings_"
  const ScoreModifiersField := "marqo__score_modifiers"

  /** `_get_vespa_type`: the Vespa type of a Marqo field type, an InternalError outside the map. */
  function VespaType(t: FieldType): (r: Result<string, SchemaError>)
    ensures r.Err? <==> t == MultimodalCombination
    ensures r.Err? ==> r.error == UnknownMarqoType(t)
  {
    match t
    case Text => Ok("string")
    case Bool => Ok("bool")
    case Int => Ok("int")
    case Float => Ok("float")
    case ArrayText => Ok("array<string>")
    case ArrayInt => Ok("array<int>")
    case ArrayFloat => Ok("array<float>")
    case ImagePointer => Ok("string")
    case MultimodalCombination => Err(UnknownMarqoType(t))
  }

  /** Each array type is the Vespa array of its element type's Vespa type. */
  lemma ArrayTypesWrapElements()
    ensures VespaType(ArrayText).value == "array<" + VespaType(Text).value + ">"
    ensures VespaType(ArrayInt).value == "array<" + VespaType(Int).value + ">"
    ensures VespaType(ArrayFloat).value == "array<" + VespaType(Float).value + ">"
  {
  }

  /** `_get_distance_metric`: the Vespa name of a distance metric. */
  function DistanceMetricName(m: DistanceMetric): string
  {
    match m
    case Euclidean => "euclidean"
    case Angular => "angular"
    case DotProduct => "dotproduct"
    case PrenormalizedAngular => "prenormalized-angular"
    case Geodegrees => "geodegrees"
    case Hamming => "hamming"
  }

  /** No two metrics share a Vespa name, so the schema names the metric the index uses. */
  lemma DistanceMetricNamesDistinct(m: DistanceMetric, n: DistanceMetric)
    ensures DistanceMetricName(m) == DistanceMetricName(n) <==> m == n
  {
  }

  /** Python's truthiness of an optional string: neither None nor empty. */
  predicate Truthy(s: Option<string>)
  {
    s.Some? && s.value != ""
  }

  /** An optional string as an f-string renders it: None becomes "None". */
  function Render(s: Option<string>): string
  {
    if s.Some? then s.value else "None"
  }

  /** A snapshot of a field: its constant description and the Vespa names recorded on it. */
  datatype FieldState = FieldState(name: string, fieldType: FieldType, features: set<FieldFeature>,
                                   lexicalFieldName: Option<string>, filterFieldName: Option<string>)

  /** A snapshot of a tensor field and the Vespa names recorded on it. */
  datatype TensorState = TensorState(name: string, chunkFieldName: Option<string>, embeddingsFieldName: Option<string>)

  /** A field of an index (`marqo_index.fields`), on which the schema generator records Vespa names. */
  class Field {
    const name: string
    const fieldType: FieldType
    const features: set<FieldFeature>
    var lexicalFieldName: Option<string>
    var filterFieldName: Option<string>

    constructor (name: string, fieldType: FieldType, features: set<FieldFeature>)
      ensures State() == FieldState(name, fieldType, features, None, None)
    {
      this.name := name;
      this.fieldType := fieldType;
      this.features := features;
      lexicalFieldName := None;
      filterFieldName := None;
    }

    function State(): FieldState
      reads this
    {
      FieldState(name, fieldType, features, lexicalFieldName, filterFieldName)
    }
  }

  /** A tensor field of an index (`marqo_index.tensor_fields`). */
  class TensorField {
    const name: string
    var chunkFieldName: Option<string>
    var embeddingsFieldName: Option<string>

    constructor (name: string)
      ensures State() == TensorState(name, None, None)
    {
      this.name := name;
      chunkFieldName := None;
      embeddingsFieldName := None;
    }

    function State(): TensorState
      reads this
    {
      TensorState(name, chunkFieldName, embeddingsFieldName)
    }
  }

  /**
   * The parts of a `MarqoIndex` the structured index reads. The index's own class is not
   * part of this model: `lexical_fields`, `score_modifier_fields`, the two name maps and the
   * model's dimension are taken as given.
   */
  datatype MarqoIndex = MarqoIndex(
    name: string, indexType: IndexType,
    fields: seq<Field>, tensorFields: seq<TensorField>,
    fieldMap: map<string, Field>, tensorFieldMap: map<string, TensorField>,
    lexicalFields: seq<string>, scoreModifierFields: seq<string>,
    modelDimension: int, distanceMetric: DistanceMetric, hnswM: int, hnswEfConstruction: int)

  function FieldStates(fs: seq<Field>): (r: seq<FieldState>)
    reads fs
    ensures |r| == |fs| && forall i :: 0 <= i < |fs| ==> r[i] == fs[i].State()
  {
    seq(|fs|, i reads fs requires 0 <= i < |fs| => fs[i].State())
  }

  function TensorStates(ts: seq<TensorField>): (r: seq<TensorState>)
    reads ts
    ensures |r| == |ts| && forall i :: 0 <= i < |ts| ==> r[i] == ts[i].State()
  {
    seq(|ts|, i reads ts requires 0 <= i < |ts| => ts[i].State())
  }

  // ---------------------------------------------------------------- document section

  /** The names the document section records on a field. */
  function Generated(s: FieldState): FieldState
  {
    if s.fieldType == MultimodalCombination then s
    else s.(lexicalFieldName := if LexicalSearch in s.features then Some(LexicalPrefix + s.name) else s.lexicalFieldName,
            filterFieldName := if Filter in s.features then Some(FilterPrefix + s.name) else s.filterFieldName)
  }

  /** The names the document section records on a tensor field. */
  function TensorGenerated(t: TensorState): TensorState
  {
    t.(chunkFieldName := Some(ChunksPrefix + t.name), embeddingsFieldName := Some(EmbeddingsPrefix + t.name))
  }

  /** Recording a field's names a second time changes nothing, so a field listed twice ends up as if listed once. */
  lemma GeneratedIdempotent(s: FieldState)
    ensures Generated(Generated(s)) == Generated(s)
  {
  }

  /** The declarations of one (not multimodal) field. */
  function FieldDeclaration(name: string, t: FieldType, features: set<FieldFeature>): seq<string>
    requires t != MultimodalCombination
  {
    LexicalDeclaration(name, t, features) + FilterDeclaration(name, t, features) + PlainDeclaration(name, t, features)
  }

  function LexicalDeclaration(name: string, t: FieldType, features: set<FieldFeature>): seq<string>
    requires t != MultimodalCombination
  {
    var fieldName := LexicalPrefix + name;
    if LexicalSearch in features then
      ["field " + fieldName + " type " + VespaType(t).value + " {", "indexing: index | summary", "index: enable-bm25", "}"]
    else []
  }

  function FilterDeclaration(name: string, t: FieldType, features: set<FieldFeature>): seq<string>
    requires t != MultimodalCombination
  {
    var fieldName := FilterPrefix + name;
    if Filter in features then
      ["field " + fieldName + " type " + VespaType(t).value + " {", "indexing: attribute | summary", "attribute: fast-search", "rank: filter", "}"]
    else []
  }

  function PlainDeclaration(name: string, t: FieldType, features: set<FieldFeature>): seq<string>
    requires t != MultimodalCombination
  {
    if LexicalSearch !in features && Filter !in features then
      ["field " + name + " type " + VespaType(t).value + " {", "indexing: summary", "}"]
    else []
  }

  /** The declarations of a field; multimodal fields declare nothing of their own. */
  function Declaration(f: Field): seq<string>
  {
    if f.fieldType == MultimodalCombination then [] else FieldDeclaration(f.name, f.fieldType, f.features)
  }

  function FieldDeclarations(fs: seq<Field>): seq<string>
  {
    if fs == [] then [] else FieldDeclarations(fs[..|fs| - 1]) + Declaration(fs[|fs| - 1])
  }

  /** The declarations of one tensor field: its chunks and its embeddings with their HNSW index. */
  function TensorDeclaration(name: string, idx: MarqoIndex): seq<string>
  {
    ["field " + ChunksPrefix + name + " type array<string> {",
     "indexing: attribute | summary",
     "}",
     "field " + EmbeddingsPrefix + name + " type tensor<float>(p{}, x[" + IntToString(idx.modelDimension) + "]) {",
     "indexing: attribute | index | summary",
     "attribute { distance-metric: " + DistanceMetricName(idx.distanceMetric) + " }",
     "index { hnsw {",
     "max-links-per-node: " + IntToString(idx.hnswM),
     "neighbors-to-explore-at-insert: " + IntToString(idx.hnswEfConstruction),
     "}}",
     "}"]
  }

  function TensorDeclarations(ts: seq<TensorField>, idx: MarqoIndex): seq<string>
  {
    if ts == [] then [] else TensorDeclarations(ts[..|ts| - 1], idx) + TensorDeclaration(ts[|ts| - 1].name, idx)
  }

  function ScoreModifiersDeclaration(idx: MarqoIndex): seq<string>
  {
    if |idx.scoreModifierFields| > 0 then
      ["field " + ScoreModifiersField + " type tensor<float>(p{}) { indexing: attribute }"]
    else []
  }

  /** `_generate_document_section`: the lines of the document section. */
  function DocumentSection(idx: MarqoIndex): seq<string>
  {
    ["document " + idx.name + " {", "field id type string { indexing: summary }"]
    + FieldDeclarations(idx.fields)
    + ScoreModifiersDeclaration(idx)
    + TensorDeclarations(idx.tensorFields, idx)
    + ["}"]
  }

  /** A field whose names were never recorded. */
  predicate Fresh(s: FieldState)
  {
    s.lexicalFieldName == None && s.filterFieldName == None
  }

  /** The field a summary reads from: the filter field, else the lexical field, else the field itself. */
  function SummarySource(s: FieldState): string
  {
    if Truthy(s.filterFieldName) then s.filterFieldName.value
    else if Truthy(s.lexicalFieldName) then s.lexicalFieldName.value
    else s.name
  }

  /**
   * Once the document section has been generated for a fresh field, its summary reads the
   * filter field when the field is filterable (even when it is also lexically searchable),
   * the lexical field when it is only searchable, and the plain field otherwise.
   */
  lemma SummarySourceAfterGeneration(s: FieldState)
    requires s.fieldType != MultimodalCombination && Fresh(s)
    ensures SummarySource(Generated(s)) ==
            if Filter in s.features then FilterPrefix + s.name
            else if LexicalSearch in s.features then LexicalPrefix + s.name
            else s.name
  {
    assert |FilterPrefix + s.name| > 0 && |LexicalPrefix + s.name| > 0;
  }

  /** The summary of a fresh field reads a field that the document section declares, with the same type. */
  lemma {:induction false} SummarySourceDeclared(s: FieldState)
    requires s.fieldType != MultimodalCombination && Fresh(s)
    ensures "field " + SummarySource(Generated(s)) + " type " + VespaType(s.fieldType).value + " {"
            in FieldDeclaration(s.name, s.fieldType, s.features)
  {
    SummarySourceAfterGeneration(s);
    var lexical := LexicalDeclaration(s.name, s.fieldType, s.features);
    var filter := FilterDeclaration(s.name, s.fieldType, s.features);
    var plain := PlainDeclaration(s.name, s.fieldType, s.features);
    if Filter in s.features {
      assert filter[0] in lexical + filter + plain;
    } else if LexicalSearch in s.features {
      assert lexical[0] in lexical + filter + plain;
    } else {
      assert plain[0] in lexical + filter + plain;
    }
  }

  /** The part of `_generate_document_section`'s loop that declares one field and records its names. */
  method DeclareField(field: Field) returns (lines: seq<string>)
    modifies field
    ensures lines == Declaration(field)
    ensures field.State() == Generated(old(field.State()))
  {
    lines := [];
    if field.fieldType != MultimodalCombination {
      var fieldType := VespaType(field.fieldType).value;
      if LexicalSearch in field.features {
        var fieldName := LexicalPrefix + field.name;
        lines := lines + ["field " + fieldName + " type " + fieldType + " {", "indexing: index | summary", "index: enable-bm25", "}"];
        field.lexicalFieldName := Some(fieldName);
      }
      if Filter in field.features {
        var fieldName := FilterPrefix + field.name;
        lines := lines + ["field " + fieldName + " type " + fieldType + " {", "indexing: attribute | summary", "attribute: fast-search", "rank: filter", "}"];
        field.filterFieldName := Some(fieldName);
      }
      if LexicalSearch !in field.features && Filter !in field.features {
        var fieldName := field.name;
        lines := lines + ["field " + fieldName + " type " + fieldType + " {", "indexing: summary", "}"];
      }
    }
  }

  /** `_generate_document_section`'s loop over the fields. */
  method DeclareFields(fields: seq<Field>) returns (lines: seq<string>)
    modifies fields
    ensures lines == FieldDeclarations(fields)
    ensures forall f :: f in fields ==> f.State() == Generated(old(f.State()))
  {
    ghost var initial := FieldStates(fields);
    lines := [];
    var i := 0;
    while i < |fields|
      invariant 0 <= i <= |fields|
      invariant lines == FieldDeclarations(fields[..i])
      invariant DeclaredUpTo(fields, initial, i)
    {
      lines := DeclareNextField(fields, initial, i, lines);
      i := i + 1;
    }
    assert fields[..i] == fields;
  }

  /**
   * The fields before position `i` hold the generated names, the others the names they had
   * (`initial`), unless the same field object was met before `i`.
   */
  ghost predicate DeclaredUpTo(fields: seq<Field>, initial: seq<FieldState>, i: int)
    reads fields
  {
    && |initial| == |fields|
    && (forall j, k :: 0 <= j < k < |fields| && fields[j] == fields[k] ==> initial[j] == initial[k])
    && forall k :: 0 <= k < |fields| ==>
         fields[k].State() == Generated(initial[k]) || (i <= k && fields[k].State() == initial[k])
  }

  /** One pass of `_generate_document_section`'s loop over the fields. */
  method DeclareNextField(fields: seq<Field>, ghost initial: seq<FieldState>, i: int, lines: seq<string>)
    returns (next: seq<string>)
    requires 0 <= i < |fields| && lines == FieldDeclarations(fields[..i])
    requires DeclaredUpTo(fields, initial, i)
    modifies fields[i]
    ensures next == FieldDeclarations(fields[..i + 1])
    ensures DeclaredUpTo(fields, initial, i + 1)
  {
    var field := fields[i];
    Seqs.TakeSnoc(fields, i);
    var declaration := DeclareField(field);
    next := lines + declaration;
    forall k | 0 <= k < |fields|
      ensures fields[k].State() == Generated(initial[k]) || (i < k && fields[k].State() == initial[k])
    {
      if fields[k] == field {
        GeneratedIdempotent(initial[i]);
        assert k != i ==> initial[k] == initial[i];
      } else {
        assert fields[k].State() == old(fields[k].State());
      }
    }
  }

  /** `_generate_document_section`'s loop over the tensor fields. */
  method DeclareTensorFields(tensorFields: seq<TensorField>, idx: MarqoIndex) returns (lines: seq<string>)
    modifies tensorFields
    ensures lines == TensorDeclarations(tensorFields, idx)
    ensures forall t :: t in tensorFields ==> t.State() == TensorGenerated(old(t.State()))
  {
    lines := [];
    var j := 0;
    while j < |tensorFields|
      invariant 0 <= j <= |tensorFields|
      invariant lines == TensorDeclarations(tensorFields[..j], idx)
      invariant forall t :: t in tensorFields ==>
        t.State() == if t in tensorFields[..j] then TensorGenerated(old(t.State())) else old(t.State())
    {
      var field := tensorFields[j];
      Seqs.TakeSnoc(tensorFields, j);
      assert TensorDeclarations(tensorFields[..j + 1], idx) == TensorDeclarations(tensorFields[..j], idx) + TensorDeclaration(field.name, idx);
      var chunksFieldName := ChunksPrefix + field.name;
      var embeddingFieldName := EmbeddingsPrefix + field.name;
      lines := lines + TensorDeclaration(field.name, idx);
      field.chunkFieldName := Some(chunksFieldName);
      field.embeddingsFieldName := Some(embeddingFieldName);
      assert field.State() == TensorGenerated(old(field.State()));
      j := j + 1;
    }
    assert tensorFields[..j] == tensorFields;
  }

  /**
   * `_generate_document_section`: returns the document section and records the lexical,
   * filter, chunks and embeddings field names on the index's fields.
   */
  method GenerateDocumentSection(idx: MarqoIndex) returns (document: seq<string>)
    modifies idx.fields
    modifies idx.tensorFields
    ensures document == DocumentSection(idx)
    ensures forall f :: f in idx.fields ==> f.State() == Generated(old(f.State()))
    ensures forall t :: t in idx.tensorFields ==> t.State() == TensorGenerated(old(t.State()))
  {
    var fields := DeclareFields(idx.fields);
    var tensors := DeclareTensorFields(idx.tensorFields, idx);
    document := ["document " + idx.name + " {", "field id type string { indexing: summary }"]
                + fields + ScoreModifiersDeclaration(idx) + tensors + ["}"];
  }

  // ---------------------------------------------------------------- summaries

  /** The summary of one (not multimodal) field, under its own name and read from its source field. */
  function SummaryLine(s: FieldState): string
    requires s.fieldType != MultimodalCombination
  {
    "summary " + s.name + " type " + VespaType(s.fieldType).value + " { source: " + SummarySource(s) + " }"
  }

  function FieldSummary(s: FieldState): seq<string>
  {
    if s.fieldType == MultimodalCombination then [] else [SummaryLine(s)]
  }

  function FieldSummaries(ss: seq<FieldState>): seq<string>
  {
    if ss == [] then [] else FieldSummaries(ss[..|ss| - 1]) + FieldSummary(ss[|ss| - 1])
  }

  function ChunkSummary(t: TensorState): string
  {
    "summary " + Render(t.chunkFieldName) + " type array<string> { }"
  }

  function VectorSummary(t: TensorState, dimension: int): string
  {
    "summary " + Render(t.embeddingsFieldName) + " type tensor<float>(p{}, x[" + IntToString(dimension) + "]) { }"
  }

  function ChunkSummaries(ts: seq<TensorState>): seq<string>
  {
    if ts == [] then [] else ChunkSummaries(ts[..|ts| - 1]) + [ChunkSummary(ts[|ts| - 1])]
  }

  function VectorSummaries(ts: seq<TensorState>, dimension: int): seq<string>
  {
    if ts == [] then [] else VectorSummaries(ts[..|ts| - 1], dimension) + [VectorSummary(ts[|ts| - 1], dimension)]
  }

  /** The lines of the non-vector summary: one per field, then the chunks of each tensor field. */
  function NonVectorSummaries(ss: seq<FieldState>, ts: seq<TensorState>): seq<string>
  {
    FieldSummaries(ss) + ChunkSummaries(ts)
  }

  /** `_generate_summaries`: the non-vector summary, then the vector summary that extends it. */
  function Summaries(ss: seq<FieldState>, ts: seq<TensorState>, dimension: int): seq<string>
  {
    ["document-summary all-non-vector-summary {"] + NonVectorSummaries(ss, ts) + ["}"]
    + ["document-summary all-vector-summary {"] + NonVectorSummaries(ss, ts) + VectorSummaries(ts, dimension) + ["}"]
  }

  /** Every field that is not multimodal has its summary line in the field summaries. */
  lemma {:induction false} FieldSummariesCover(ss: seq<FieldState>, s: FieldState)
    requires s in ss && s.fieldType != MultimodalCombination
    ensures SummaryLine(s) in FieldSummaries(ss)
  {
    var n := |ss|;
    if ss[n - 1] == s {
      assert FieldSummary(s) == [SummaryLine(s)];
    } else {
      assert s in ss[..n - 1] by {
        var k :| 0 <= k < n && ss[k] == s;
        assert ss[..n - 1][k] == s;
      }
      FieldSummariesCover(ss[..n - 1], s);
    }
  }

  /** The non-vector summary, which the vector summary repeats, carries every field that is not multimodal. */
  lemma SummariesCoverFields(ss: seq<FieldState>, ts: seq<TensorState>, s: FieldState)
    requires s in ss && s.fieldType != MultimodalCombination
    ensures SummaryLine(s) in NonVectorSummaries(ss, ts)
  {
    FieldSummariesCover(ss, s);
  }

  /** The summary line `_generate_summaries` writes for one field that is not multimodal. */
  method SummariseField(field: Field) returns (line: string)
    requires field.fieldType != MultimodalCombination
    ensures line == SummaryLine(field.State())
  {
    var targetFieldName := field.name;
    var fieldType := VespaType(field.fieldType).value;
    var sourceFieldName;
    if field.filterFieldName.Some? && field.filterFieldName.value != "" {
      sourceFieldName := field.filterFieldName.value;
    } else if field.lexicalFieldName.Some? && field.lexicalFieldName.value != "" {
      sourceFieldName := field.lexicalFieldName.value;
    } else {
      sourceFieldName := field.name;
    }
    line := "summary " + targetFieldName + " type " + fieldType + " { source: " + sourceFieldName + " }";
  }

  /** `_generate_summaries`'s loop over the fields. */
  method SummariseFields(fields: seq<Field>) returns (nonVector: seq<string>)
    ensures nonVector == FieldSummaries(FieldStates(fields))
  {
    ghost var ss := FieldStates(fields);
    nonVector := [];
    var i := 0;
    while i < |fields|
      invariant 0 <= i <= |fields|
      invariant nonVector == FieldSummaries(ss[..i])
    {
      var field := fields[i];
      Seqs.TakeSnoc(ss, i);
      if field.fieldType != MultimodalCombination {
        var line := SummariseField(field);
        nonVector := nonVector + [line];
      }
      i := i + 1;
    }
    assert ss[..i] == ss;
  }

  /** `_generate_summaries`'s loop over the tensor fields, which extends the non-vector summary. */
  method SummariseTensorFields(tensorFields: seq<TensorField>, dimension: int, fieldSummaries: seq<string>)
    returns (nonVector: seq<string>, vector: seq<string>)
    ensures nonVector == fieldSummaries + ChunkSummaries(TensorStates(tensorFields))
    ensures vector == VectorSummaries(TensorStates(tensorFields), dimension)
  {
    ghost var ts := TensorStates(tensorFields);
    nonVector, vector := fieldSummaries, [];
    var j := 0;
    while j < |tensorFields|
      invariant 0 <= j <= |tensorFields|
      invariant nonVector == fieldSummaries + ChunkSummaries(ts[..j])
      invariant vector == VectorSummaries(ts[..j], dimension)
    {
      var field := tensorFields[j];
      Seqs.TakeSnoc(ts, j);
      var chunk := "summary " + Render(field.chunkFieldName) + " type array<string> { }";
      assert fieldSummaries + ChunkSummaries(ts[..j + 1]) == nonVector + [chunk];
      nonVector := nonVector + [chunk];
      vector := vector + ["summary " + Render(field.embeddingsFieldName) + " type tensor<float>(p{}, x["
                          + IntToString(dimension) + "]) { }"];
      j := j + 1;
    }
    assert ts[..j] == ts;
  }

  /** `_generate_summaries`. */
  method GenerateSummaries(idx: MarqoIndex) returns (summaries: seq<string>)
    ensures summaries == Summaries(FieldStates(idx.fields), TensorStates(idx.tensorFields), idx.modelDimension)
  {
    var fieldSummaries := SummariseFields(idx.fields);
    var nonVector, vector := SummariseTensorFields(idx.tensorFields, idx.modelDimension, fieldSummaries);
    summaries := ["document-summary all-non-vector-summary {"] + nonVector + ["}"]
                 + ["document-summary all-vector-summary {"] + nonVector + vector + ["}"];
  }

  // ---------------------------------------------------------------- default fieldset

  /** `_generate_default_fieldset`: the lexical fields form the default fieldset, when there are any. */
  function DefaultFieldset(lexicalFields: seq<string>): seq<string>
  {
    if |lexicalFields| > 0 then ["fieldset default {", "fields: " + Filtering.Join(", ", lexicalFields), "}"] else []
  }

  // ---------------------------------------------------------------- rank profiles

  /** The rank profiles a structured schema can declare. */
  datatype Profile = Bm25 | EmbeddingSimilarity | Modifiers | Bm25Modifiers | EmbeddingSimilarityModifiers

  /** The line that opens a rank profile. */
  function Header(p: Profile): string
  {
    match p
    case Bm25 => "rank-profile bm25 inherits default { first-phase {"
    case EmbeddingSimilarity => "rank-profile embedding_similarity inherits default {"
    case Modifiers => "rank-profile modifiers inherits default {"
    case Bm25Modifiers => "rank-profile bm25_modifiers inherits modifiers { first-phase {"
    case EmbeddingSimilarityModifiers => "rank-profile embedding_similarity_modifiers inherits modifiers { first-phase {"
  }

  const ModifyExpression :=
    "if (count(query(mult_weights)) == 0, 1, reduce(query(mult_weights) * attribute(" + ScoreModifiersField
    + "), prod)) * score + reduce(query(add_weights) * attribute(" + ScoreModifiersField + "), sum)"

  /** The sum of the bm25 scores of the lexical fields. */
  function Bm25Expression(lexicalFields: seq<string>): string
  {
    Filtering.Join(" + ", seq(|lexicalFields|, i requires 0 <= i < |lexicalFields| => "bm25(" + lexicalFields[i] + ")"))
  }

  /** The sum, over the tensor fields the query selects, of the closeness of their embeddings. */
  function SimilarityExpression(ts: seq<TensorState>): string
  {
    Filtering.Join(" + ", seq(|ts|, i requires 0 <= i < |ts| =>
      "if (query(" + ts[i].name + ") > 0, closeness(field, " + Render(ts[i].embeddingsFieldName) + "), 0)"))
  }

  /** One query input per tensor field, so that a query can switch each field off. */
  function QueryInputs(ts: seq<TensorState>): seq<string>
  {
    if ts == [] then [] else QueryInputs(ts[..|ts| - 1]) + ["query(" + ts[|ts| - 1].name + "): 1"]
  }

  function SimilarityOpening(dimension: int): seq<string>
  {
    ["inputs {", "query(query_embedding) tensor<float>(x[" + IntToString(dimension) + "])"]
  }

  function SimilarityClosing(expression: string): seq<string>
  {
    ["}", "first-phase {", "expression: " + expression, "}}"]
  }

  function ModifiersBody(): seq<string>
  {
    ["inputs {", "query(mult_weights)  tensor<float>(p{})", "query(add_weights)  tensor<float>(p{})", "}",
     "function modify(score) {", "expression: " + ModifyExpression, "}}"]
  }

  /** The text of one rank profile. */
  function ProfileLines(p: Profile, lexicalFields: seq<string>, ts: seq<TensorState>, dimension: int): seq<string>
  {
    [Header(p)]
    + match p
      case Bm25 => ["expression: " + Bm25Expression(lexicalFields), "}}"]
      case EmbeddingSimilarity => SimilarityOpening(dimension) + QueryInputs(ts) + SimilarityClosing(SimilarityExpression(ts))
      case Modifiers => ModifiersBody()
      case Bm25Modifiers => ["expression: modify(" + Bm25Expression(lexicalFields) + ")", "}}"]
      case EmbeddingSimilarityModifiers => ["expression: modify(" + SimilarityExpression(ts) + ")", "}}"]
  }

  /** The texts of `xs`, one after the other. */
  function Concat<T>(xs: seq<T>, text: T -> seq<string>): seq<string>
  {
    if xs == [] then [] else text(xs[0]) + Concat(xs[1..], text)
  }

  lemma {:induction false} ConcatAppend<T>(xs: seq<T>, ys: seq<T>, text: T -> seq<string>)
    ensures Concat(xs + ys, text) == Concat(xs, text) + Concat(ys, text)
  {
    if xs != [] {
      assert (xs + ys)[0] == xs[0] && (xs + ys)[1..] == xs[1..] + ys;
      ConcatAppend(xs[1..], ys, text);
    } else {
      assert xs + ys == ys;
    }
  }

  /** `[p]` when `present`, else nothing. */
  function Part(present: bool, p: Profile): seq<Profile>
  {
    if present then [p] else []
  }

  /**
   * The profiles `_generate_rank_profiles` emits, in order, given whether the index has
   * lexical, tensor and score-modifier fields.
   */
  function Emitted(lexical: bool, tensor: bool, modifiers: bool): seq<Profile>
  {
    Part(lexical, Bm25) + Part(tensor, EmbeddingSimilarity)
    + if modifiers then [Modifiers] + Part(lexical, Bm25Modifiers) + Part(tensor, EmbeddingSimilarityModifiers) else []
  }

  function EmittedProfiles(lexicalFields: seq<string>, scoreModifierFields: seq<string>, ts: seq<TensorState>): seq<Profile>
  {
    Emitted(|lexicalFields| > 0, |ts| > 0, |scoreModifierFields| > 0)
  }

  /** The text of each profile, for an index's lexical fields, tensor fields and model dimension. */
  function ProfileText(lexicalFields: seq<string>, ts: seq<TensorState>, dimension: int): Profile -> seq<string>
  {
    p => ProfileLines(p, lexicalFields, ts, dimension)
  }

  /** `_generate_rank_profiles`: the text of the emitted profiles. */
  function RankProfiles(lexicalFields: seq<string>, scoreModifierFields: seq<string>, ts: seq<TensorState>, dimension: int): seq<string>
  {
    Concat(EmittedProfiles(lexicalFields, scoreModifierFields, ts), ProfileText(lexicalFields, ts, dimension))
  }

  /** The text of profile `p` when `present`, else nothing. */
  function Section(present: bool, p: Profile, text: Profile -> seq<string>): seq<string>
  {
    if present then text(p) else []
  }

  /** The text of the modifiers profile and of the profiles that inherit it. */
  function ModifierSections(lexical: bool, tensor: bool, text: Profile -> seq<string>): seq<string>
  {
    text(Modifiers) + Section(lexical, Bm25Modifiers, text) + Section(tensor, EmbeddingSimilarityModifiers, text)
  }

  /** The text of the emitted profiles, as the conditional appends that produce it. */
  function SectionedText(lexical: bool, tensor: bool, modifiers: bool, text: Profile -> seq<string>): seq<string>
  {
    var firstPhase := Section(lexical, Bm25, text) + Section(tensor, EmbeddingSimilarity, text);
    if modifiers then firstPhase + ModifierSections(lexical, tensor, text) else firstPhase
  }

  lemma ConcatPart(present: bool, p: Profile, text: Profile -> seq<string>)
    ensures Concat(Part(present, p), text) == Section(present, p, text)
  {
    if present {
      assert Part(present, p)[1..] == [];
    }
  }

  /** Rendering the emitted profiles one after the other gives the text of the conditional appends. */
  lemma ConcatEmitted(lexical: bool, tensor: bool, modifiers: bool, text: Profile -> seq<string>)
    ensures Concat(Emitted(lexical, tensor, modifiers), text) == SectionedText(lexical, tensor, modifiers, text)
  {
    var firstPhase := Part(lexical, Bm25) + Part(tensor, EmbeddingSimilarity);
    ConcatAppend(Part(lexical, Bm25), Part(tensor, EmbeddingSimilarity), text);
    ConcatPart(lexical, Bm25, text);
    ConcatPart(tensor, EmbeddingSimilarity, text);
    if modifiers {
      var head := [Modifiers] + Part(lexical, Bm25Modifiers);
      var rest := head + Part(tensor, EmbeddingSimilarityModifiers);
      ConcatAppend(firstPhase, rest, text);
      ConcatAppend(head, Part(tensor, EmbeddingSimilarityModifiers), text);
      ConcatAppend([Modifiers], Part(lexical, Bm25Modifiers), text);
      assert [Modifiers][1..] == [];
      ConcatPart(lexical, Bm25Modifiers, text);
      ConcatPart(tensor, EmbeddingSimilarityModifiers, text);
    } else {
      assert Emitted(lexical, tensor, modifiers) == firstPhase;
    }
  }

  /**
   * bm25 is emitted exactly when there are lexical fields and embedding_similarity exactly
   * when there are tensor fields; the modifiers profiles only when there are score-modifier
   * fields, bm25_modifiers and embedding_similarity_modifiers needing lexical and tensor fields
   * too; no profile is emitted twice.
   */
  lemma RankProfileEmission(lexicalFields: seq<string>, scoreModifierFields: seq<string>, ts: seq<TensorState>)
    ensures var emitted := EmittedProfiles(lexicalFields, scoreModifierFields, ts);
            && (Bm25 in emitted <==> |lexicalFields| > 0)
            && (EmbeddingSimilarity in emitted <==> |ts| > 0)
            && (Modifiers in emitted <==> |scoreModifierFields| > 0)
            && (Bm25Modifiers in emitted <==> |scoreModifierFields| > 0 && |lexicalFields| > 0)
            && (EmbeddingSimilarityModifiers in emitted <==> |scoreModifierFields| > 0 && |ts| > 0)
            && forall i, j :: 0 <= i < j < |emitted| ==> emitted[i] != emitted[j]
  {
    var emitted := EmittedProfiles(lexicalFields, scoreModifierFields, ts);
    var lexical, tensor, modifiers := |lexicalFields| > 0, |ts| > 0, |scoreModifierFields| > 0;
    if modifiers {
      if lexical && tensor {
        assert emitted == [Bm25, EmbeddingSimilarity, Modifiers, Bm25Modifiers, EmbeddingSimilarityModifiers];
      } else if lexical {
        assert emitted == [Bm25, Modifiers, Bm25Modifiers];
      } else if tensor {
        assert emitted == [EmbeddingSimilarity, Modifiers, EmbeddingSimilarityModifiers];
      } else {
        assert emitted == [Modifiers];
      }
    } else {
      if lexical && tensor {
        assert emitted == [Bm25, EmbeddingSimilarity];
      } else if lexical {
        assert emitted == [Bm25];
      } else if tensor {
        assert emitted == [EmbeddingSimilarity];
      } else {
        assert emitted == [];
      }
    }
  }

  /** No two profiles share a header, so the text names each emitted profile once. */
  lemma HeadersDistinct(p: Profile, q: Profile)
    ensures Header(p) == Header(q) <==> p == q
  {
    if p != q {
      HeaderLength(p);
      HeaderLength(q);
    }
  }

  /** The headers have pairwise different lengths. */
  lemma HeaderLength(p: Profile)
    ensures |Header(p)| == match p
                           case Bm25 => 50
                           case EmbeddingSimilarity => 52
                           case Modifiers => 41
                           case Bm25Modifiers => 62
                           case EmbeddingSimilarityModifiers => 78
  {
    match p
    case Bm25 =>
    case EmbeddingSimilarity =>
    case Modifiers =>
    case Bm25Modifiers =>
    case EmbeddingSimilarityModifiers =>
  }

  /** The loop of `_generate_rank_profiles` that declares one query input per tensor field. */
  method DeclareQueryInputs(ts: seq<TensorState>) returns (inputs: seq<string>)
    ensures inputs == QueryInputs(ts)
  {
    inputs := [];
    var i := 0;
    while i < |ts|
      invariant 0 <= i <= |ts|
      invariant inputs == QueryInputs(ts[..i])
    {
      Seqs.TakeSnoc(ts, i);
      inputs := inputs + ["query(" + ts[i].name + "): 1"];
      i := i + 1;
    }
    assert ts[..i] == ts;
  }

  /** The lines `_generate_rank_profiles` appends for one profile. */
  method EmitProfile(p: Profile, lexicalFields: seq<string>, ts: seq<TensorState>, dimension: int,
                     bm25Expression: string, similarityExpression: string)
    returns (lines: seq<string>)
    requires bm25Expression == Bm25Expression(lexicalFields) && similarityExpression == SimilarityExpression(ts)
    ensures lines == ProfileLines(p, lexicalFields, ts, dimension)
  {
    match p
    case Bm25 =>
      lines := [Header(p)] + ["expression: " + bm25Expression, "}}"];
    case EmbeddingSimilarity =>
      lines := EmitSimilarityProfile(lexicalFields, ts, dimension, similarityExpression);
    case Modifiers =>
      lines := [Header(p)] + ModifiersBody();
    case Bm25Modifiers =>
      lines := [Header(p)] + ["expression: modify(" + bm25Expression + ")", "}}"];
    case EmbeddingSimilarityModifiers =>
      lines := [Header(p)] + ["expression: modify(" + similarityExpression + ")", "}}"];
  }

  /** The lines of the embedding_similarity profile, with one query input per tensor field. */
  method EmitSimilarityProfile(lexicalFields: seq<string>, ts: seq<TensorState>, dimension: int, similarityExpression: string)
    returns (lines: seq<string>)
    requires similarityExpression == SimilarityExpression(ts)
    ensures lines == ProfileLines(EmbeddingSimilarity, lexicalFields, ts, dimension)
  {
    var inputs := DeclareQueryInputs(ts);
    lines := [Header(EmbeddingSimilarity)] + SimilarityOpening(dimension) + inputs + SimilarityClosing(similarityExpression);
  }

  /** `if present:` followed by the appends of profile `p`'s lines. */
  method EmitSection(present: bool, p: Profile, lexicalFields: seq<string>, ts: seq<TensorState>, dimension: int,
                     bm25Expression: string, similarityExpression: string)
    returns (lines: seq<string>)
    requires bm25Expression == Bm25Expression(lexicalFields) && similarityExpression == SimilarityExpression(ts)
    ensures lines == Section(present, p, ProfileText(lexicalFields, ts, dimension))
  {
    lines := [];
    if present {
      lines := EmitProfile(p, lexicalFields, ts, dimension, bm25Expression, similarityExpression);
    }
  }

  /** The part of `_generate_rank_profiles` that emits the modifiers profiles. */
  method GenerateModifierProfiles(lexicalFields: seq<string>, ts: seq<TensorState>, dimension: int,
                                  bm25Expression: string, similarityExpression: string)
    returns (profiles: seq<string>)
    requires bm25Expression == Bm25Expression(lexicalFields) && similarityExpression == SimilarityExpression(ts)
    ensures profiles == ModifierSections(|lexicalFields| > 0, |ts| > 0, ProfileText(lexicalFields, ts, dimension))
  {
    var modifiers := EmitProfile(Modifiers, lexicalFields, ts, dimension, bm25Expression, similarityExpression);
    var bm25Modifiers := EmitSection(|lexicalFields| > 0, Bm25Modifiers, lexicalFields, ts, dimension, bm25Expression, similarityExpression);
    var similarityModifiers := EmitSection(|ts| > 0, EmbeddingSimilarityModifiers, lexicalFields, ts, dimension, bm25Expression, similarityExpression);
    profiles := modifiers + bm25Modifiers + similarityModifiers;
  }

  /** `_generate_rank_profiles`. */
  method GenerateRankProfiles(lexicalFields: seq<string>, scoreModifierFields: seq<string>, ts: seq<TensorState>, dimension: int)
    returns (profiles: seq<string>)
    ensures profiles == RankProfiles(lexicalFields, scoreModifierFields, ts, dimension)
  {
    var bm25Expression, similarityExpression := Bm25Expression(lexicalFields), SimilarityExpression(ts);
    var bm25 := EmitSection(|lexicalFields| > 0, Bm25, lexicalFields, ts, dimension, bm25Expression, similarityExpression);
    var similarity := EmitSection(|ts| > 0, EmbeddingSimilarity, lexicalFields, ts, dimension, bm25Expression, similarityExpression);
    profiles := bm25 + similarity;
    if |scoreModifierFields| > 0 {
      var modifiers := GenerateModifierProfiles(lexicalFields, ts, dimension, bm25Expression, similarityExpression);
      profiles := profiles + modifiers;
    }
    ConcatEmitted(|lexicalFields| > 0, |ts| > 0, |scoreModifierFields| > 0, ProfileText(lexicalFields, ts, dimension));
  }

  // ---------------------------------------------------------------- schema

  /** `_validate_index_type`. */
  function ValidateIndexType(idx: MarqoIndex): (r: Option<SchemaError>)
    ensures r.None? <==> idx.indexType == Structured
  {
    if idx.indexType != Structured then Some(WrongIndexType(idx.indexType)) else None
  }

  /** The lines of the schema, for the names recorded on the fields (`ss`) and tensor fields (`ts`). */
  function SchemaLines(idx: MarqoIndex, ss: seq<FieldState>, ts: seq<TensorState>): seq<string>
  {
    ["schema " + idx.name + " {"]
    + DocumentSection(idx)
    + RankProfiles(idx.lexicalFields, idx.scoreModifierFields, ts, idx.modelDimension)
    + DefaultFieldset(idx.lexicalFields)
    + Summaries(ss, ts, idx.modelDimension)
    + ["}"]
  }

  /**
   * `generate_schema`: a ValueError for an index that is not structured; otherwise the
   * newline-joined schema, after the document section has recorded the fields' Vespa names.
   */
  method GenerateSchema(idx: MarqoIndex) returns (r: Result<string, SchemaError>)
    modifies idx.fields
    modifies idx.tensorFields
    ensures idx.indexType != Structured ==> r == Err(WrongIndexType(idx.indexType))
    ensures idx.indexType != Structured ==> unchanged(idx.fields) && unchanged(idx.tensorFields)
    ensures idx.indexType == Structured
            ==> r == Ok(Filtering.Join("\n", SchemaLines(idx, FieldStates(idx.fields), TensorStates(idx.tensorFields))))
    ensures idx.indexType == Structured ==> forall f :: f in idx.fields ==> f.State() == Generated(old(f.State()))
    ensures idx.indexType == Structured ==> forall t :: t in idx.tensorFields ==> t.State() == TensorGenerated(old(t.State()))
  {
    var invalid := ValidateIndexType(idx);
    if invalid.Some? {
      return Err(invalid.value);
    }
    var schema := AssembleSchema(idx);
    return Ok(Filtering.Join("\n", schema));
  }

  /** The schema lines `generate_schema` joins, for a structured index. */
  method AssembleSchema(idx: MarqoIndex) returns (schema: seq<string>)
    modifies idx.fields
    modifies idx.tensorFields
    ensures schema == SchemaLines(idx, FieldStates(idx.fields), TensorStates(idx.tensorFields))
    ensures forall f :: f in idx.fields ==> f.State() == Generated(old(f.State()))
    ensures forall t :: t in idx.tensorFields ==> t.State() == TensorGenerated(old(t.State()))
  {
    var document := GenerateDocumentSection(idx);
    schema := SchemaAround(idx, document);
  }

  /** The schema lines around a document section, once the fields have recorded their Vespa names. */
  method SchemaAround(idx: MarqoIndex, document: seq<string>) returns (schema: seq<string>)
    requires document == DocumentSection(idx)
    ensures schema == SchemaLines(idx, FieldStates(idx.fields), TensorStates(idx.tensorFields))
  {
    var ts := TensorStates(idx.tensorFields);
    var profiles := GenerateRankProfiles(idx.lexicalFields, idx.scoreModifierFields, ts, idx.modelDimension);
    var summaries := GenerateSummaries(idx);
    schema := ["schema " + idx.name + " {"] + document + profiles + DefaultFieldset(idx.lexicalFields) + summaries + ["}"];
  }
}
