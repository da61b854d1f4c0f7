/**
 * `StructuredVespaIndex.to_vespa_document`: the Vespa feed document a Marqo document becomes
 * in a structured index. Plain fields are checked against the index's field map and written
 * under the Vespa names the schema generator recorded on them; tensor fields carry their
 * chunks and a map of their embeddings keyed "0", "1", ...
 */
module StructuredDocument {
  import opened Wrappers
  import Seqs
  import opened PyDict
  import opened Decimal
  import opened StructuredSchema

  /**
   * The reserved keys of a Marqo document (`constants.MARQO_DOC_ID`, `MARQO_DOC_TENSORS`,
   * `MARQO_DOC_CHUNKS`, `MARQO_DOC_EMBEDDINGS`); the constants module is not part of this model.
   */
  datatype DocKeys = DocKeys(id: string, tensors: string, chunks: string, embeddings: string)

  const IdField := "id"          // _ID_FIELD_NAME
  const VespaDocId := "id"       // _VESPA_DOC_ID
  const VespaDocFields := "fields"  // _VESPA_DOC_FIELDS

  /** The Python classes `_get_python_type` names. */
  datatype PyClass = PyStr | PyBool | PyInt | PyFloat | PyList

  /** `isinstance(v, c)`; `bool` is a subclass of `int`. */
  predicate IsInstance(v: Value, c: PyClass)
  {
    match c
    case PyStr => v.VStr?
    case PyBool => v.VBool?
    case PyInt => v.VInt? || v.VBool?
    case PyFloat => v.VFloat?
    case PyList => v.VList?
  }

  /** `_get_python_type`: a single class is a one-element list here; Float accepts float or int. */
  function PythonType(t: FieldType): (r: Result<seq<PyClass>, SchemaError>)
    ensures r.Err? <==> t == MultimodalCombination
    ensures r.Err? ==> r.error == UnknownMarqoType(t)
    ensures r.Ok? ==> |r.value| > 0
  {
    match t
    case Text => Ok([PyStr])
    case Bool => Ok([PyBool])
    case Int => Ok([PyInt])
    case Float => Ok([PyFloat, PyInt])
    case ArrayText => Ok([PyList])
    case ArrayInt => Ok([PyList])
    case ArrayFloat => Ok([PyList])
    case ImagePointer => Ok([PyStr])
    case MultimodalCombination => Err(UnknownMarqoType(t))
  }

  /** The values a field of each type takes, written out case by case. */
  predicate Accepted(t: FieldType, v: Value)
  {
    match t
    case Text => v.VStr?
    case ImagePointer => v.VStr?
    case Bool => v.VBool?
    case Int => v.VInt? || v.VBool?
    case Float => v.VFloat? || v.VInt? || v.VBool?
    case ArrayText => v.VList?
    case ArrayInt => v.VList?
    case ArrayFloat => v.VList?
    case MultimodalCombination => false
  }

  /** `any(isinstance(v, c) for c in classes)`. */
  predicate AnyInstance(v: Value, classes: seq<PyClass>)
  {
    |classes| > 0 && (IsInstance(v, classes[0]) || AnyInstance(v, classes[1..]))
  }

  /** `_verify_marqo_field_type`: the value must be an instance of one of the field's classes. */
  function CheckFieldType(name: string, v: Value, t: FieldType): (r: Result<(), SchemaError>)
    ensures r.Ok? <==> Accepted(t, v)
    ensures t == MultimodalCombination ==> r == Err(UnknownMarqoType(t))
    ensures t != MultimodalCombination && !Accepted(t, v) ==> r == Err(InvalidDataType(name))
  {
    var classes :- PythonType(t);
    assert AnyInstance(v, classes) <==> Accepted(t, v) by {
      assert classes[1..] == if t == Float then [PyInt] else [];
      assert t == Float ==> classes[1..][1..] == [];
      assert !AnyInstance(v, []);
    }
    if AnyInstance(v, classes) then Ok(()) else Err(InvalidDataType(name))
  }

  /** The Vespa fields a plain field's value is written to. */
  function Destinations(f: FieldState): set<string>
  {
    (if Truthy(f.lexicalFieldName) then {f.lexicalFieldName.value} else {})
    + (if Truthy(f.filterFieldName) then {f.filterFieldName.value} else {})
    + (if !Truthy(f.lexicalFieldName) && !Truthy(f.filterFieldName) then {f.name} else {})
  }

  /** Writing a plain value: under its lexical and filter names, or under its own name if it has neither. */
  function Route(fields: Dict<Value>, f: FieldState, v: Value): (r: Dict<Value>)
    ensures forall k :: Get(r, k) == if k in Destinations(f) then Some(v) else Get(fields, k)
  {
    var withLexical := PutIf(fields, Truthy(f.lexicalFieldName), f.lexicalFieldName, v);
    var withFilter := PutIf(withLexical, Truthy(f.filterFieldName), f.filterFieldName, v);
    PutIf(withFilter, !Truthy(f.lexicalFieldName) && !Truthy(f.filterFieldName), Some(f.name), v)
  }

  /** One `if ...: fields[k] = v` of the routing. */
  function PutIf(d: Dict<Value>, cond: bool, k: Option<string>, v: Value): (r: Dict<Value>)
    requires cond ==> k.Some?
    ensures forall k' :: Get(r, k') == if cond && k' == k.value then Some(v) else Get(d, k')
  {
    if cond then Put(d, k.value, v) else d
  }

  /** One plain document entry: its name must be a field of the index and its value of the field's type. */
  function AddPlainField(fs: map<string, FieldState>, fields: Dict<Value>, name: string, v: Value): (r: Result<Dict<Value>, SchemaError>)
    ensures name !in fs ==> r == Err(InvalidFieldName(name))
    ensures r.Ok? <==> name in fs && Accepted(fs[name].fieldType, v)
    ensures r.Ok? ==> r.value == Route(fields, fs[name], v)
  {
    if name !in fs then Err(InvalidFieldName(name))
    else
      var _ :- CheckFieldType(name, v, fs[name].fieldType);
      Ok(Route(fields, fs[name], v))
  }

  /** A key the field loop processes (everything but the id and the tensors). */
  predicate IsPlain(keys: DocKeys, name: string)
  {
    name != keys.tensors && name != keys.id
  }

  /** The field loop over the document's entries in order, stopping at the first error. */
  function PlainFields(fs: map<string, FieldState>, entries: Dict<Value>, keys: DocKeys, fields: Dict<Value>): Result<Dict<Value>, SchemaError>
  {
    if entries == [] then Ok(fields)
    else if !IsPlain(keys, entries[0].0) then PlainFields(fs, entries[1..], keys, fields)
    else
      match AddPlainField(fs, fields, entries[0].0, entries[0].1)
      case Err(e) => Err(e)
      case Ok(next) => PlainFields(fs, entries[1..], keys, next)
  }

  /**
   * `{f'{i}': embeddings[i] for i in range(len(embeddings))}`: a list or a string is indexed
   * element by element; an empty dict gives an empty map and a non-empty one (whose keys are
   * strings) a KeyError on 0; anything else has no `len`.
   */
  function EmbeddingMap(tensorName: string, embeddings: Value): (r: Result<Dict<Value>, SchemaError>)
    ensures embeddings.VList? ==> r.Ok? && |r.value| == |embeddings.items|
    ensures r.Ok? ==> UniqueKeys(r.value)
    ensures r.Ok? ==> forall i :: 0 <= i < |r.value| ==> r.value[i].0 == NatToString(i)
    ensures r.Ok? && embeddings.VList? ==> forall i :: 0 <= i < |r.value| ==> r.value[i].1 == embeddings.items[i]
  {
    var r := match embeddings
      case VList(items) => Ok(seq(|items|, i requires 0 <= i < |items| => (NatToString(i), items[i])))
      case VStr(s) => Ok(seq(|s|, i requires 0 <= i < |s| => (NatToString(i), VStr([s[i]]))))
      case VDict(d) => if d == [] then Ok([]) else Err(MissingKey(NatToString(0)))
      case _ => Err(NotAMapping(tensorName));
    assert r.Ok? ==> UniqueKeys(r.value) by {
      if r.Ok? {
        forall i, j | 0 <= i < j < |r.value|
          ensures r.value[i].0 != r.value[j].0
        {
          NatToStringInjective(i, j);
        }
      }
    }
    r
  }

  /** The chunks a tensor value holds, if it is a dict with them. */
  function ChunksOf(v: Value, keys: DocKeys): Option<Value>
  {
    if v.VDict? then Get(v.entries, keys.chunks) else None
  }

  /** The embeddings map a tensor value is stored as: its embeddings keyed "0".."n-1". */
  function StoredEmbeddings(name: string, v: Value, keys: DocKeys): Result<Dict<Value>, SchemaError>
  {
    if v.VDict? && Get(v.entries, keys.embeddings).Some? then EmbeddingMap(name, Get(v.entries, keys.embeddings).value)
    else Err(NotAMapping(name))
  }

  /** The tensor field name check: against the field map as written, or the tensor field map as intended. */
  predicate TensorNameKnown(fs: map<string, FieldState>, ts: map<string, TensorState>, checkTensorMap: bool, name: string)
  {
    if checkTensorMap then name in ts else name in fs
  }

  /**
   * One tensor field of the document. `_verify_marqo_tensor_field_name` as written checks the
   * name against the field map (`checkTensorMap` false); the tensor field map lookup after it
   * then raises KeyError for a field that is not a tensor field. With `checkTensorMap` the name
   * is checked against the tensor field map, as its error message says.
   */
  function AddTensorField(fs: map<string, FieldState>, ts: map<string, TensorState>, keys: DocKeys, checkTensorMap: bool,
                          fields: Dict<Value>, name: string, v: Value): (r: Result<Dict<Value>, SchemaError>)
    ensures checkTensorMap && name !in ts ==> r == Err(InvalidFieldName(name))
    ensures !checkTensorMap && name !in fs ==> r == Err(InvalidFieldName(name))
    ensures TensorNameKnown(fs, ts, checkTensorMap, name) && !v.VDict? ==> r == Err(NotAMapping(name))
    ensures TensorNameKnown(fs, ts, checkTensorMap, name) && v.VDict? && Keys(v.entries) != {keys.chunks, keys.embeddings} ==>
              r == Err(InvalidTensorField(name))
    ensures r.Ok? <==> TensorNameKnown(fs, ts, checkTensorMap, name) && name in ts && v.VDict?
                       && Keys(v.entries) == {keys.chunks, keys.embeddings} && StoredEmbeddings(name, v, keys).Ok?
    ensures r.Ok? ==> Get(r.value, Render(ts[name].embeddingsFieldName)) == Some(VDict(StoredEmbeddings(name, v, keys).value))
    ensures r.Ok? && Render(ts[name].chunkFieldName) != Render(ts[name].embeddingsFieldName) ==>
              Get(r.value, Render(ts[name].chunkFieldName)) == ChunksOf(v, keys)
  {
    if !TensorNameKnown(fs, ts, checkTensorMap, name) then Err(InvalidFieldName(name))
    else if !v.VDict? then Err(NotAMapping(name))
    else if Keys(v.entries) != {keys.chunks, keys.embeddings} then Err(InvalidTensorField(name))
    else
      assert HasKey(v.entries, keys.chunks) && HasKey(v.entries, keys.embeddings);
      var chunks := Get(v.entries, keys.chunks).value;
      var embeddings := Get(v.entries, keys.embeddings).value;
      if name !in ts then Err(MissingKey(name))
      else
        var embeddingMap :- EmbeddingMap(name, embeddings);
        var withChunks := Put(fields, Render(ts[name].chunkFieldName), chunks);
        Ok(Put(withChunks, Render(ts[name].embeddingsFieldName), VDict(embeddingMap)))
  }

  /** A tensor field writes its chunks and embeddings fields and leaves every other field as it was. */
  lemma TensorFieldWritesOwnFields(fs: map<string, FieldState>, ts: map<string, TensorState>, keys: DocKeys, checkTensorMap: bool,
                                   fields: Dict<Value>, name: string, v: Value, k: string)
    requires AddTensorField(fs, ts, keys, checkTensorMap, fields, name, v).Ok?
    requires k != Render(ts[name].chunkFieldName) && k != Render(ts[name].embeddingsFieldName)
    ensures Get(AddTensorField(fs, ts, keys, checkTensorMap, fields, name, v).value, k) == Get(fields, k)
  {
    var withChunks := Put(fields, Render(ts[name].chunkFieldName), Get(v.entries, keys.chunks).value);
    assert Get(withChunks, k) == Get(fields, k);
  }

  /** The tensor loop over the entries of the tensors dict in order, stopping at the first error. */
  function TensorFields(fs: map<string, FieldState>, ts: map<string, TensorState>, keys: DocKeys, checkTensorMap: bool,
                        entries: Dict<Value>, fields: Dict<Value>): Result<Dict<Value>, SchemaError>
  {
    if entries == [] then Ok(fields)
    else
      match AddTensorField(fs, ts, keys, checkTensorMap, fields, entries[0].0, entries[0].1)
      case Err(e) => Err(e)
      case Ok(next) => TensorFields(fs, ts, keys, checkTensorMap, entries[1..], next)
  }

  /**
   * Iterating the document's tensors value: a dict yields its entries, an empty list or string
   * yields nothing, and any other value fails. The error is coarse: Python raises a TypeError
   * on the lookup or the iteration, except for a list of small integers, whose lookup
   * succeeds and whose name check then raises InvalidFieldNameError.
   */
  function TensorEntries(keys: DocKeys, tensors: Value): Result<Dict<Value>, SchemaError>
  {
    match tensors
    case VDict(d) => Ok(d)
    case VList(items) => if items == [] then Ok([]) else Err(NotAMapping(keys.tensors))
    case VStr(s) => if s == [] then Ok([]) else Err(NotAMapping(keys.tensors))
    case _ => Err(NotAMapping(keys.tensors))
  }

  /** The fields the document starts from: its id under "id" when it has one. */
  function IdFields(doc: Dict<Value>, keys: DocKeys): Dict<Value>
  {
    match Get(doc, keys.id)
    case Some(id) => [(IdField, id)]
    case None => []
  }

  /** The returned document: the fields, and the id at the top level unless it is absent or None. */
  function Envelope(doc: Dict<Value>, keys: DocKeys, fields: Dict<Value>): Dict<Value>
  {
    match Get(doc, keys.id)
    case Some(id) => if id != VNone then [(VespaDocFields, VDict(fields)), (VespaDocId, id)] else [(VespaDocFields, VDict(fields))]
    case None => [(VespaDocFields, VDict(fields))]
  }

  /** `to_vespa_document` after the index type check, for the fields `fs` and tensor fields `ts`. */
  function DocumentOf(fs: map<string, FieldState>, ts: map<string, TensorState>,
                      doc: Dict<Value>, keys: DocKeys, checkTensorMap: bool): Result<Dict<Value>, SchemaError>
  {
    var plain :- PlainFields(fs, doc, keys, IdFields(doc, keys));
    match Get(doc, keys.tensors)
    case None => Ok(Envelope(doc, keys, plain))
    case Some(tensors) =>
      var entries :- TensorEntries(keys, tensors);
      var fields :- TensorFields(fs, ts, keys, checkTensorMap, entries, plain);
      Ok(Envelope(doc, keys, fields))
  }

  /** `to_vespa_document` on an index whose field and tensor field maps hold the fields `fs` and `ts`. */
  function VespaDocumentOf(idx: MarqoIndex, fs: map<string, FieldState>, ts: map<string, TensorState>,
                           doc: Dict<Value>, keys: DocKeys, checkTensorMap: bool): Result<Dict<Value>, SchemaError>
  {
    if ValidateIndexType(idx).Some? then Err(ValidateIndexType(idx).value) else DocumentOf(fs, ts, doc, keys, checkTensorMap)
  }

  /** Every entry the field loop processes names a field of the index and holds a value of its type. */
  predicate AllPlainValid(fs: map<string, FieldState>, entries: Dict<Value>, keys: DocKeys)
  {
    forall i :: 0 <= i < |entries| && IsPlain(keys, entries[i].0) ==>
      entries[i].0 in fs && Accepted(fs[entries[i].0].fieldType, entries[i].1)
  }

  /** The field loop succeeds exactly when every plain entry is a known field with a value of its type. */
  lemma {:induction false} PlainFieldsAccept(fs: map<string, FieldState>, entries: Dict<Value>, keys: DocKeys, fields: Dict<Value>)
    ensures PlainFields(fs, entries, keys, fields).Ok? <==> AllPlainValid(fs, entries, keys)
  {
    if entries != [] {
      assert forall i :: 0 < i < |entries| ==> entries[i] == entries[1..][i - 1];
      var next := AddPlainField(fs, fields, entries[0].0, entries[0].1);
      if !IsPlain(keys, entries[0].0) {
        PlainFieldsAccept(fs, entries[1..], keys, fields);
      } else if next.Ok? {
        PlainFieldsAccept(fs, entries[1..], keys, next.value);
      }
    }
  }

  /** The error of the field loop is the one the first invalid plain entry raises. */
  lemma {:induction false} PlainFieldsFirstError(fs: map<string, FieldState>, entries: Dict<Value>, keys: DocKeys, fields: Dict<Value>, j: nat)
    requires j < |entries| && IsPlain(keys, entries[j].0)
    requires !(entries[j].0 in fs && Accepted(fs[entries[j].0].fieldType, entries[j].1))
    requires forall i :: 0 <= i < j && IsPlain(keys, entries[i].0) ==>
               entries[i].0 in fs && Accepted(fs[entries[i].0].fieldType, entries[i].1)
    ensures PlainFields(fs, entries, keys, fields) ==
              if entries[j].0 !in fs then Err(InvalidFieldName(entries[j].0))
              else Err(CheckFieldType(entries[j].0, entries[j].1, fs[entries[j].0].fieldType).error)
  {
    if j > 0 {
      assert forall i :: 0 < i < |entries| ==> entries[i] == entries[1..][i - 1];
      var next := AddPlainField(fs, fields, entries[0].0, entries[0].1);
      PlainFieldsFirstError(fs, entries[1..], keys, if IsPlain(keys, entries[0].0) then next.value else fields, j - 1);
    }
  }

  /** A Vespa field no remaining plain entry routes to keeps its value through the field loop. */
  lemma {:induction false} PlainFieldsKeep(fs: map<string, FieldState>, entries: Dict<Value>, keys: DocKeys, fields: Dict<Value>, k: string)
    requires PlainFields(fs, entries, keys, fields).Ok?
    requires forall i :: 0 <= i < |entries| && IsPlain(keys, entries[i].0) && entries[i].0 in fs ==>
               k !in Destinations(fs[entries[i].0])
    ensures Get(PlainFields(fs, entries, keys, fields).value, k) == Get(fields, k)
  {
    if entries != [] {
      assert forall i :: 0 < i < |entries| ==> entries[i] == entries[1..][i - 1];
      if !IsPlain(keys, entries[0].0) {
        PlainFieldsKeep(fs, entries[1..], keys, fields, k);
      } else {
        var next := AddPlainField(fs, fields, entries[0].0, entries[0].1);
        PlainFieldsKeep(fs, entries[1..], keys, next.value, k);
      }
    }
  }

  /** No two fields of the index write to the same Vespa field. */
  predicate DisjointRoutes(fs: map<string, FieldState>)
  {
    forall a, b :: a in fs && b in fs && a != b ==> Destinations(fs[a]) !! Destinations(fs[b])
  }

  /**
   * When no two fields share a Vespa name, the field loop leaves each plain value under every
   * Vespa name of its field.
   */
  lemma {:induction false} PlainValueLands(fs: map<string, FieldState>, entries: Dict<Value>, keys: DocKeys, fields: Dict<Value>,
                                           j: nat, dest: string)
    requires UniqueKeys(entries) && DisjointRoutes(fs)
    requires PlainFields(fs, entries, keys, fields).Ok?
    requires j < |entries| && IsPlain(keys, entries[j].0) && entries[j].0 in fs
    requires dest in Destinations(fs[entries[j].0])
    ensures Get(PlainFields(fs, entries, keys, fields).value, dest) == Some(entries[j].1)
  {
    assert forall i :: 0 < i < |entries| ==> entries[i] == entries[1..][i - 1];
    var next := AddPlainField(fs, fields, entries[0].0, entries[0].1);
    if j == 0 {
      assert Get(next.value, dest) == Some(entries[0].1);
      forall i | 0 <= i < |entries[1..]| && IsPlain(keys, entries[1..][i].0) && entries[1..][i].0 in fs
        ensures dest !in Destinations(fs[entries[1..][i].0])
      {
        assert entries[1..][i].0 == entries[i + 1].0 != entries[0].0;
      }
      PlainFieldsKeep(fs, entries[1..], keys, next.value, dest);
    } else {
      assert UniqueKeys(entries[1..]);
      PlainValueLands(fs, entries[1..], keys, if IsPlain(keys, entries[0].0) then next.value else fields, j - 1, dest);
    }
  }

  /** On success every tensor entry names a tensor field and is a dict of exactly the chunks and the embeddings. */
  lemma {:induction false} TensorFieldsAccept(fs: map<string, FieldState>, ts: map<string, TensorState>, keys: DocKeys, checkTensorMap: bool,
                                              entries: Dict<Value>, fields: Dict<Value>)
    requires TensorFields(fs, ts, keys, checkTensorMap, entries, fields).Ok?
    ensures forall i :: 0 <= i < |entries| ==> TensorEntryAccepted(ts, keys, entries[i])
  {
    if entries != [] {
      var next := AddTensorField(fs, ts, keys, checkTensorMap, fields, entries[0].0, entries[0].1);
      assert TensorEntryAccepted(ts, keys, entries[0]);
      TensorFieldsAccept(fs, ts, keys, checkTensorMap, entries[1..], next.value);
      forall i | 0 < i < |entries| ensures TensorEntryAccepted(ts, keys, entries[i]) {
        assert entries[i] == entries[1..][i - 1];
      }
    }
  }

  /** A tensor entry names a tensor field and is a dict of exactly the chunks and the embeddings. */
  predicate TensorEntryAccepted(ts: map<string, TensorState>, keys: DocKeys, entry: (string, Value))
  {
    entry.0 in ts && entry.1.VDict? && Keys(entry.1.entries) == {keys.chunks, keys.embeddings}
  }

  /** A Vespa field that is no tensor field's chunks or embeddings field keeps its value through the tensor loop. */
  lemma {:induction false} TensorFieldsKeep(fs: map<string, FieldState>, ts: map<string, TensorState>, keys: DocKeys, checkTensorMap: bool,
                                            entries: Dict<Value>, fields: Dict<Value>, k: string)
    requires TensorFields(fs, ts, keys, checkTensorMap, entries, fields).Ok?
    requires forall name :: name in ts ==> k != Render(ts[name].chunkFieldName) && k != Render(ts[name].embeddingsFieldName)
    ensures Get(TensorFields(fs, ts, keys, checkTensorMap, entries, fields).value, k) == Get(fields, k)
  {
    if entries != [] {
      var next := AddTensorField(fs, ts, keys, checkTensorMap, fields, entries[0].0, entries[0].1);
      TensorFieldWritesOwnFields(fs, ts, keys, checkTensorMap, fields, entries[0].0, entries[0].1, k);
      TensorFieldsKeep(fs, ts, keys, checkTensorMap, entries[1..], next.value, k);
    }
  }

  /** The Vespa fields a tensor field writes: its chunks and embeddings fields. */
  function TensorDestinations(t: TensorState): set<string>
  {
    {Render(t.chunkFieldName), Render(t.embeddingsFieldName)}
  }

  /** Each tensor field has two Vespa names, and no two tensor fields share one. */
  predicate DisjointTensorRoutes(ts: map<string, TensorState>)
  {
    && (forall a :: a in ts ==> Render(ts[a].chunkFieldName) != Render(ts[a].embeddingsFieldName))
    && (forall a, b :: a in ts && b in ts && a != b ==> TensorDestinations(ts[a]) !! TensorDestinations(ts[b]))
  }

  /** A Vespa field that none of the remaining tensor entries writes keeps its value through the tensor loop. */
  lemma {:induction false} TensorEntriesKeep(fs: map<string, FieldState>, ts: map<string, TensorState>, keys: DocKeys, checkTensorMap: bool,
                                             entries: Dict<Value>, fields: Dict<Value>, k: string)
    requires TensorFields(fs, ts, keys, checkTensorMap, entries, fields).Ok?
    requires forall i :: 0 <= i < |entries| && entries[i].0 in ts ==> k !in TensorDestinations(ts[entries[i].0])
    ensures Get(TensorFields(fs, ts, keys, checkTensorMap, entries, fields).value, k) == Get(fields, k)
  {
    if entries != [] {
      var next := AddTensorField(fs, ts, keys, checkTensorMap, fields, entries[0].0, entries[0].1);
      TensorFieldWritesOwnFields(fs, ts, keys, checkTensorMap, fields, entries[0].0, entries[0].1, k);
      assert forall i :: 0 < i < |entries| ==> entries[i] == entries[1..][i - 1];
      TensorEntriesKeep(fs, ts, keys, checkTensorMap, entries[1..], next.value, k);
    }
  }

  /** A successful tensor loop is its first step followed by the loop over the rest. */
  lemma TensorFieldsStep(fs: map<string, FieldState>, ts: map<string, TensorState>, keys: DocKeys, checkTensorMap: bool,
                         entries: Dict<Value>, fields: Dict<Value>)
    requires entries != [] && TensorFields(fs, ts, keys, checkTensorMap, entries, fields).Ok?
    ensures AddTensorField(fs, ts, keys, checkTensorMap, fields, entries[0].0, entries[0].1).Ok?
    ensures TensorFields(fs, ts, keys, checkTensorMap, entries, fields) ==
              TensorFields(fs, ts, keys, checkTensorMap, entries[1..], AddTensorField(fs, ts, keys, checkTensorMap, fields, entries[0].0, entries[0].1).value)
  {
  }

  /** What the tensor loop leaves for the first entry: its chunks and its embeddings map. */
  lemma FirstTensorLands(fs: map<string, FieldState>, ts: map<string, TensorState>, keys: DocKeys, checkTensorMap: bool,
                         entries: Dict<Value>, fields: Dict<Value>)
    requires UniqueKeys(entries) && DisjointTensorRoutes(ts)
    requires entries != [] && TensorFields(fs, ts, keys, checkTensorMap, entries, fields).Ok?
    ensures var out := TensorFields(fs, ts, keys, checkTensorMap, entries, fields).value;
            var t := ts[entries[0].0];
            && Get(out, Render(t.chunkFieldName)) == ChunksOf(entries[0].1, keys)
            && StoredEmbeddings(entries[0].0, entries[0].1, keys).Ok?
            && Get(out, Render(t.embeddingsFieldName)) == Some(VDict(StoredEmbeddings(entries[0].0, entries[0].1, keys).value))
  {
    TensorFieldsStep(fs, ts, keys, checkTensorMap, entries, fields);
    var next := AddTensorField(fs, ts, keys, checkTensorMap, fields, entries[0].0, entries[0].1).value;
    var t := ts[entries[0].0];
    forall i | 0 <= i < |entries[1..]| && entries[1..][i].0 in ts
      ensures Render(t.chunkFieldName) !in TensorDestinations(ts[entries[1..][i].0])
      ensures Render(t.embeddingsFieldName) !in TensorDestinations(ts[entries[1..][i].0])
    {
      assert entries[1..][i].0 == entries[i + 1].0 != entries[0].0;
    }
    TensorEntriesKeep(fs, ts, keys, checkTensorMap, entries[1..], next, Render(t.chunkFieldName));
    TensorEntriesKeep(fs, ts, keys, checkTensorMap, entries[1..], next, Render(t.embeddingsFieldName));
  }

  /**
   * When the tensor entries have distinct names and no two tensor fields share a Vespa name,
   * the tensor loop leaves each entry's chunks under its chunks field and its embeddings map
   * under its embeddings field.
   */
  lemma {:induction false} TensorValueLands(fs: map<string, FieldState>, ts: map<string, TensorState>, keys: DocKeys, checkTensorMap: bool,
                                            entries: Dict<Value>, fields: Dict<Value>, j: nat)
    requires UniqueKeys(entries) && DisjointTensorRoutes(ts)
    requires TensorFields(fs, ts, keys, checkTensorMap, entries, fields).Ok?
    requires j < |entries| && entries[j].0 in ts
    ensures var out := TensorFields(fs, ts, keys, checkTensorMap, entries, fields).value;
            var t := ts[entries[j].0];
            && Get(out, Render(t.chunkFieldName)) == ChunksOf(entries[j].1, keys)
            && StoredEmbeddings(entries[j].0, entries[j].1, keys).Ok?
            && Get(out, Render(t.embeddingsFieldName)) == Some(VDict(StoredEmbeddings(entries[j].0, entries[j].1, keys).value))
  {
    if j == 0 {
      FirstTensorLands(fs, ts, keys, checkTensorMap, entries, fields);
    } else {
      TensorFieldsStep(fs, ts, keys, checkTensorMap, entries, fields);
      var next := AddTensorField(fs, ts, keys, checkTensorMap, fields, entries[0].0, entries[0].1).value;
      assert entries[1..][j - 1] == entries[j];
      assert UniqueKeys(entries[1..]);
      TensorValueLands(fs, ts, keys, checkTensorMap, entries[1..], next, j - 1);
    }
  }

  /** The fields of a returned Vespa document. */
  function VespaFields(d: Dict<Value>): Dict<Value>
  {
    var fields := Get(d, VespaDocFields);
    if fields.Some? && fields.value.VDict? then fields.value.entries else []
  }

  /** No tensor field writes its chunks or embeddings to the Vespa field `k`. */
  predicate AvoidsTensorFields(ts: map<string, TensorState>, k: string)
  {
    forall name :: name in ts ==> k != Render(ts[name].chunkFieldName) && k != Render(ts[name].embeddingsFieldName)
  }

  /**
   * A document converts only on a structured index and only if every plain entry is a known
   * field with a value of its type; without tensors that is also enough.
   */
  lemma DocumentAccept(idx: MarqoIndex, fs: map<string, FieldState>, ts: map<string, TensorState>,
                       doc: Dict<Value>, keys: DocKeys, checkTensorMap: bool)
    ensures VespaDocumentOf(idx, fs, ts, doc, keys, checkTensorMap).Ok? ==>
              idx.indexType == Structured && AllPlainValid(fs, doc, keys)
    ensures !HasKey(doc, keys.tensors) ==>
              (VespaDocumentOf(idx, fs, ts, doc, keys, checkTensorMap).Ok? <==> idx.indexType == Structured && AllPlainValid(fs, doc, keys))
  {
    PlainFieldsAccept(fs, doc, keys, IdFields(doc, keys));
  }

  /** The returned document carries the document's id at the top level unless it is absent or None. */
  lemma DocumentTopLevelId(idx: MarqoIndex, fs: map<string, FieldState>, ts: map<string, TensorState>,
                           doc: Dict<Value>, keys: DocKeys, checkTensorMap: bool)
    requires VespaDocumentOf(idx, fs, ts, doc, keys, checkTensorMap).Ok?
    ensures var d := VespaDocumentOf(idx, fs, ts, doc, keys, checkTensorMap).value;
            Get(d, VespaDocId) == if Get(doc, keys.id) == Some(VNone) then None else Get(doc, keys.id)
  {
  }

  /** The document's id, None included, is the "id" field when no field writes there. */
  lemma DocumentIdField(idx: MarqoIndex, fs: map<string, FieldState>, ts: map<string, TensorState>,
                        doc: Dict<Value>, keys: DocKeys, checkTensorMap: bool)
    requires VespaDocumentOf(idx, fs, ts, doc, keys, checkTensorMap).Ok?
    requires forall name :: name in fs ==> IdField !in Destinations(fs[name])
    requires AvoidsTensorFields(ts, IdField)
    ensures Get(VespaFields(VespaDocumentOf(idx, fs, ts, doc, keys, checkTensorMap).value), IdField) == Get(doc, keys.id)
  {
    var start := IdFields(doc, keys);
    var plain := PlainFields(fs, doc, keys, start);
    PlainFieldsKeep(fs, doc, keys, start, IdField);
    var tensors := Get(doc, keys.tensors);
    if tensors.Some? {
      var entries := TensorEntries(keys, tensors.value);
      TensorFieldsKeep(fs, ts, keys, checkTensorMap, entries.value, plain.value, IdField);
    }
  }

  /**
   * When no two fields share a Vespa name and no tensor field writes to one of them, the
   * converted document holds each plain value under every Vespa name of its field.
   */
  lemma DocumentPlainValue(idx: MarqoIndex, fs: map<string, FieldState>, ts: map<string, TensorState>,
                           doc: Dict<Value>, keys: DocKeys, checkTensorMap: bool, j: nat, dest: string)
    requires UniqueKeys(doc) && DisjointRoutes(fs)
    requires VespaDocumentOf(idx, fs, ts, doc, keys, checkTensorMap).Ok?
    requires j < |doc| && IsPlain(keys, doc[j].0) && doc[j].0 in fs
    requires dest in Destinations(fs[doc[j].0]) && AvoidsTensorFields(ts, dest)
    ensures Get(VespaFields(VespaDocumentOf(idx, fs, ts, doc, keys, checkTensorMap).value), dest) == Some(doc[j].1)
  {
    var start := IdFields(doc, keys);
    var plain := PlainFields(fs, doc, keys, start);
    PlainValueLands(fs, doc, keys, start, j, dest);
    var tensors := Get(doc, keys.tensors);
    if tensors.Some? {
      var entries := TensorEntries(keys, tensors.value);
      TensorFieldsKeep(fs, ts, keys, checkTensorMap, entries.value, plain.value, dest);
    }
  }

  /**
   * When the document's tensor entries have distinct names and no two tensor fields share a
   * Vespa name, the converted document holds each tensor entry's chunks under its chunks
   * field and its embeddings, keyed "0".."n-1", under its embeddings field.
   */
  lemma DocumentTensorValue(idx: MarqoIndex, fs: map<string, FieldState>, ts: map<string, TensorState>,
                            doc: Dict<Value>, keys: DocKeys, checkTensorMap: bool, tensors: Dict<Value>, j: nat)
    requires UniqueKeys(tensors) && DisjointTensorRoutes(ts)
    requires VespaDocumentOf(idx, fs, ts, doc, keys, checkTensorMap).Ok?
    requires Get(doc, keys.tensors) == Some(VDict(tensors))
    requires j < |tensors| && tensors[j].0 in ts
    ensures var out := VespaFields(VespaDocumentOf(idx, fs, ts, doc, keys, checkTensorMap).value);
            var t := ts[tensors[j].0];
            && Get(out, Render(t.chunkFieldName)) == ChunksOf(tensors[j].1, keys)
            && StoredEmbeddings(tensors[j].0, tensors[j].1, keys).Ok?
            && Get(out, Render(t.embeddingsFieldName)) == Some(VDict(StoredEmbeddings(tensors[j].0, tensors[j].1, keys).value))
  {
    var plain := PlainFields(fs, doc, keys, IdFields(doc, keys));
    TensorValueLands(fs, ts, keys, checkTensorMap, tensors, plain.value, j);
  }

  /**
   * A tensor entry named after a field that is not a tensor field passes the name check as
   * written and fails on the tensor field map lookup with a KeyError; the corrected check
   * rejects its name.
   */
  lemma MisroutedTensorName(idx: MarqoIndex, fs: map<string, FieldState>, ts: map<string, TensorState>,
                            keys: DocKeys, name: string, chunks: Value, embeddings: seq<Value>)
    requires idx.indexType == Structured
    requires name in fs && name !in ts
    requires keys.tensors != keys.id && keys.chunks != keys.embeddings
    ensures var tensor := VDict([(keys.chunks, chunks), (keys.embeddings, VList(embeddings))]);
            var doc := [(keys.tensors, VDict([(name, tensor)]))];
            VespaDocumentOf(idx, fs, ts, doc, keys, false) == Err(MissingKey(name)) &&
            VespaDocumentOf(idx, fs, ts, doc, keys, true) == Err(InvalidFieldName(name))
  {
    var tensor := VDict([(keys.chunks, chunks), (keys.embeddings, VList(embeddings))]);
    var doc := [(keys.tensors, VDict([(name, tensor)]))];
    assert Keys(tensor.entries) == {keys.chunks, keys.embeddings} by {
      assert tensor.entries[0].0 == keys.chunks && tensor.entries[1].0 == keys.embeddings;
    }
    assert Get(doc, keys.tensors) == Some(VDict([(name, tensor)]));
    assert PlainFields(fs, doc, keys, IdFields(doc, keys)) == Ok(IdFields(doc, keys));
  }

  /** The state of every field in the index's field map. */
  function FieldMapStates(idx: MarqoIndex): map<string, FieldState>
    reads set name | name in idx.fieldMap :: idx.fieldMap[name]
  {
    map name | name in idx.fieldMap :: idx.fieldMap[name].State()
  }

  /** The state of every tensor field in the index's tensor field map. */
  function TensorMapStates(idx: MarqoIndex): map<string, TensorState>
    reads set name | name in idx.tensorFieldMap :: idx.tensorFieldMap[name]
  {
    map name | name in idx.tensorFieldMap :: idx.tensorFieldMap[name].State()
  }

  /** The field loop of `to_vespa_document`, on the fields' states. */
  method WritePlainFields(fs: map<string, FieldState>, doc: Dict<Value>, keys: DocKeys, init: Dict<Value>)
    returns (r: Result<Dict<Value>, SchemaError>)
    ensures r == PlainFields(fs, doc, keys, init)
  {
    var fields := init;
    var i := 0;
    while i < |doc|
      invariant 0 <= i <= |doc|
      invariant PlainFields(fs, doc, keys, init) == PlainFields(fs, doc[i..], keys, fields)
    {
      var (name, value) := doc[i];
      Seqs.DropFirst(doc, i);
      if IsPlain(keys, name) {
        if name !in fs {
          return Err(InvalidFieldName(name));
        }
        var checked := CheckFieldType(name, value, fs[name].fieldType);
        if checked.Err? {
          return Err(checked.error);
        }
        var field := fs[name];
        if Truthy(field.lexicalFieldName) {
          fields := Put(fields, field.lexicalFieldName.value, value);
        }
        if Truthy(field.filterFieldName) {
          fields := Put(fields, field.filterFieldName.value, value);
        }
        if !Truthy(field.lexicalFieldName) && !Truthy(field.filterFieldName) {
          fields := Put(fields, field.name, value);
        }
      }
      i := i + 1;
    }
    return Ok(fields);
  }

  /**
   * One iteration of the tensor loop: the name is checked against the field map as written
   * (`checkTensorMap` false) or against the tensor field map as intended.
   */
  method WriteTensorField(fs: map<string, FieldState>, ts: map<string, TensorState>, keys: DocKeys, checkTensorMap: bool,
                          fields: Dict<Value>, name: string, value: Value)
    returns (r: Result<Dict<Value>, SchemaError>)
    ensures r == AddTensorField(fs, ts, keys, checkTensorMap, fields, name, value)
  {
    if (if checkTensorMap then name !in ts else name !in fs) {
      return Err(InvalidFieldName(name));
    }
    if !value.VDict? {
      return Err(NotAMapping(name));
    }
    if Keys(value.entries) != {keys.chunks, keys.embeddings} {
      return Err(InvalidTensorField(name));
    }
    assert HasKey(value.entries, keys.chunks) && HasKey(value.entries, keys.embeddings);
    var chunks := Get(value.entries, keys.chunks).value;
    var embeddings := Get(value.entries, keys.embeddings).value;
    if name !in ts {
      return Err(MissingKey(name));
    }
    var tensorField := ts[name];
    var embeddingMap := EmbeddingMap(name, embeddings);
    if embeddingMap.Err? {
      return Err(embeddingMap.error);
    }
    var withChunks := Put(fields, Render(tensorField.chunkFieldName), chunks);
    return Ok(Put(withChunks, Render(tensorField.embeddingsFieldName), VDict(embeddingMap.value)));
  }

  /** The tensor loop of `to_vespa_document`, with either tensor field name check. */
  method WriteTensorFields(fs: map<string, FieldState>, ts: map<string, TensorState>, keys: DocKeys, checkTensorMap: bool,
                           entries: Dict<Value>, init: Dict<Value>)
    returns (r: Result<Dict<Value>, SchemaError>)
    ensures r == TensorFields(fs, ts, keys, checkTensorMap, entries, init)
  {
    var fields := init;
    var i := 0;
    while i < |entries|
      invariant 0 <= i <= |entries|
      invariant TensorFields(fs, ts, keys, checkTensorMap, entries, init) == TensorFields(fs, ts, keys, checkTensorMap, entries[i..], fields)
    {
      var (name, value) := entries[i];
      Seqs.DropFirst(entries, i);
      var next := WriteTensorField(fs, ts, keys, checkTensorMap, fields, name, value);
      if next.Err? {
        return next;
      }
      fields := next.value;
      i := i + 1;
    }
    return Ok(fields);
  }

  /** The document `to_vespa_document` builds once the index type is checked, with either tensor field name check. */
  method ConvertDocument(fs: map<string, FieldState>, ts: map<string, TensorState>, doc: Dict<Value>, keys: DocKeys, checkTensorMap: bool)
    returns (r: Result<Dict<Value>, SchemaError>)
    ensures r == DocumentOf(fs, ts, doc, keys, checkTensorMap)
  {
    var fields: Dict<Value> := [];
    var id := Get(doc, keys.id);
    if id.Some? {
      fields := Put(fields, IdField, id.value);
    }
    assert fields == IdFields(doc, keys);
    var plain := WritePlainFields(fs, doc, keys, fields);
    if plain.Err? {
      return plain;
    }
    fields := plain.value;
    var tensors := Get(doc, keys.tensors);
    if tensors.Some? {
      var entries := TensorEntries(keys, tensors.value);
      if entries.Err? {
        return Err(entries.error);
      }
      var written := WriteTensorFields(fs, ts, keys, checkTensorMap, entries.value, fields);
      if written.Err? {
        return written;
      }
      fields := written.value;
    }
    var vespaDoc: Dict<Value> := [(VespaDocFields, VDict(fields))];
    if id.Some? && id.value != VNone {
      vespaDoc := Put(vespaDoc, VespaDocId, id.value);
    }
    assert vespaDoc == Envelope(doc, keys, fields);
    return Ok(vespaDoc);
  }

  /**
   * `to_vespa_document`: as written with `checkTensorMap` false, where a plain field named
   * among the tensors fails with a missing key; with the corrected check when it is true.
   */
  method ToVespaDocument(doc: Dict<Value>, idx: MarqoIndex, keys: DocKeys, checkTensorMap: bool)
    returns (r: Result<Dict<Value>, SchemaError>)
    ensures r == VespaDocumentOf(idx, FieldMapStates(idx), TensorMapStates(idx), doc, keys, checkTensorMap)
  {
    var invalid := ValidateIndexType(idx);
    if invalid.Some? {
      return Err(invalid.value);
    }
    var fs := map name | name in idx.fieldMap :: idx.fieldMap[name].State();
    var ts := map name | name in idx.tensorFieldMap :: idx.tensorFieldMap[name].State();
    assert fs == FieldMapStates(idx) && ts == TensorMapStates(idx);
    r := ConvertDocument(fs, ts, doc, keys, checkTensorMap);
  }
}
