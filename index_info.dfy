/**
 * `IndexInfo`: an index's model name, its field properties and its settings, and the views of
 * the properties the search code asks for (vector fields, non-vector fields, text fields).
 */
module IndexInfo {
  import opened Wrappers
  import Seqs
  import opened PyDict

  /** Python's KeyError on a missing key, and its TypeError/AttributeError on a value of the wrong type. */
  datatype InfoError = KeyError(key: string) | TypeError

  /**
   * The names the views depend on: `TensorField.chunks`, `TensorField.vector_prefix`, the values
   * of the `TensorField` class dict and `OpenSearchDataType.text`; the enums module is not part
   * of this model.
   */
  datatype InfoKeys = InfoKeys(chunks: string, vectorPrefix: string, tensorFieldValues: set<string>, textType: string)

  const PropertiesKey := "properties"
  const TypeKey := "type"

  datatype IndexInfo = IndexInfo(modelName: string, properties: Dict<Value>, indexSettings: MutableDict)

  /** `get_index_settings`: a new dict with the same entries. */
  method GetIndexSettings(info: IndexInfo) returns (r: MutableDict)
    ensures fresh(r)
    ensures r.entries == info.indexSettings.entries
  {
    r := new MutableDict(info.indexSettings.entries);
  }

  /** Setting a key in the dict `get_index_settings` returns leaves the index's settings as they were. */
  method SetInSettingsCopy(info: IndexInfo, k: string, v: Value) returns (copy: MutableDict)
    ensures info.indexSettings.entries == old(info.indexSettings.entries)
    ensures Get(copy.entries, k) == Some(v)
  {
    copy := GetIndexSettings(info);
    copy.Set(k, v);
  }

  /** `properties[chunks]["properties"]`, which must be a dict for `.items()`. */
  function ChunkProperties(properties: Dict<Value>, keys: InfoKeys): Result<Dict<Value>, InfoError>
  {
    match Get(properties, keys.chunks)
    case None => Err(KeyError(keys.chunks))
    case Some(chunks) =>
      if !chunks.VDict? then Err(TypeError)
      else
        match Get(chunks.entries, PropertiesKey)
        case None => Err(KeyError(PropertiesKey))
        case Some(sub) => if sub.VDict? then Ok(sub.entries) else Err(TypeError)
  }

  /** `get_vector_properties`: the chunk sub-properties whose names start with the vector prefix. */
  function VectorProperties(properties: Dict<Value>, keys: InfoKeys): (r: Result<Dict<Value>, InfoError>)
    ensures r.Ok? <==> ChunkProperties(properties, keys).Ok?
    ensures r.Err? ==> r.error == ChunkProperties(properties, keys).error
    ensures r.Ok? ==> forall e :: e in r.value <==> e in ChunkProperties(properties, keys).value && keys.vectorPrefix <= e.0
  {
    var sub :- ChunkProperties(properties, keys);
    Ok(FilterKeys(sub, name => keys.vectorPrefix <= name))
  }

  /** `get_text_properties`: every property but the vector-prefixed ones and those named like a tensor field. */
  function TextProperties(properties: Dict<Value>, keys: InfoKeys): (r: Dict<Value>)
    ensures forall e :: e in r <==> e in properties && !(keys.vectorPrefix <= e.0) && e.0 !in keys.tensorFieldValues
    ensures UniqueKeys(properties) ==> UniqueKeys(r)
  {
    FilterKeys(properties, name => !(keys.vectorPrefix <= name) && name !in keys.tensorFieldValues)
  }

  /** `props["type"] == text`, with a KeyError read as "no". */
  predicate IsText(props: Dict<Value>, textType: string)
  {
    Get(props, TypeKey) == Some(VStr(textType))
  }

  /** The inner loop: every text-typed subfield is kept under "parent.sub"; a subfield that is not a dict raises. */
  function SubFields(parent: string, subs: Dict<Value>, textType: string, acc: Dict<Value>): Result<Dict<Value>, InfoError>
  {
    if subs == [] then Ok(acc)
    else if !subs[0].1.VDict? then Err(TypeError)
    else
      var next := if IsText(subs[0].1.entries, textType) then Put(acc, parent + "." + subs[0].0, subs[0].1) else acc;
      SubFields(parent, subs[1..], textType, next)
  }

  /** One property of `get_true_text_properties`: a flat text field, or the text subfields of a nested one. */
  function TextEntry(name: string, props: Value, textType: string, acc: Dict<Value>): Result<Dict<Value>, InfoError>
  {
    if !props.VDict? then Err(TypeError)
    else
      match Get(props.entries, PropertiesKey)
      case None => Ok(if IsText(props.entries, textType) then Put(acc, name, props) else acc)
      case Some(subs) => if subs.VDict? then SubFields(name, subs.entries, textType, acc) else Err(TypeError)
  }

  /** The outer loop of `get_true_text_properties`. */
  function TrueText(entries: Dict<Value>, textType: string, acc: Dict<Value>): Result<Dict<Value>, InfoError>
  {
    if entries == [] then Ok(acc)
    else
      match TextEntry(entries[0].0, entries[0].1, textType, acc)
      case Err(e) => Err(e)
      case Ok(next) => TrueText(entries[1..], textType, next)
  }

  /** `get_true_text_properties`. */
  function TrueTextProperties(properties: Dict<Value>, keys: InfoKeys): Result<Dict<Value>, InfoError>
  {
    TrueText(TextProperties(properties, keys), keys.textType, [])
  }

  /** The inner loop of `get_true_text_properties`. */
  method AddTextSubFields(parent: string, subs: Dict<Value>, textType: string, init: Dict<Value>)
    returns (r: Result<Dict<Value>, InfoError>)
    ensures r == SubFields(parent, subs, textType, init)
  {
    var acc := init;
    var i := 0;
    while i < |subs|
      invariant 0 <= i <= |subs|
      invariant SubFields(parent, subs, textType, init) == SubFields(parent, subs[i..], textType, acc)
    {
      var (sub, props) := subs[i];
      Seqs.DropFirst(subs, i);
      if !props.VDict? {
        return Err(TypeError);
      }
      if IsText(props.entries, textType) {
        acc := Put(acc, parent + "." + sub, props);
      }
      i := i + 1;
    }
    return Ok(acc);
  }

  /** `get_true_text_properties`. */
  method GetTrueTextProperties(info: IndexInfo, keys: InfoKeys) returns (r: Result<Dict<Value>, InfoError>)
    ensures r == TrueTextProperties(info.properties, keys)
  {
    var simple := TextProperties(info.properties, keys);
    var acc: Dict<Value> := [];
    var i := 0;
    while i < |simple|
      invariant 0 <= i <= |simple|
      invariant TrueText(simple, keys.textType, []) == TrueText(simple[i..], keys.textType, acc)
    {
      var (name, props) := simple[i];
      Seqs.DropFirst(simple, i);
      if !props.VDict? {
        return Err(TypeError);
      }
      var subs := Get(props.entries, PropertiesKey);
      if subs.None? {
        if IsText(props.entries, keys.textType) {
          acc := Put(acc, name, props);
        }
      } else {
        if !subs.value.VDict? {
          return Err(TypeError);
        }
        var next := AddTextSubFields(name, subs.value.entries, keys.textType, acc);
        if next.Err? {
          return next;
        }
        acc := next.value;
      }
      i := i + 1;
    }
    return Ok(acc);
  }

  /** A property `get_true_text_properties` reads without raising: a dict, whose subfields, if any, are dicts. */
  predicate WellShaped(props: Value)
  {
    props.VDict? &&
    match Get(props.entries, PropertiesKey)
    case None => true
    case Some(subs) => subs.VDict? && forall i :: 0 <= i < |subs.entries| ==> subs.entries[i].1.VDict?
  }

  /** The inner loop succeeds exactly when every subfield is a dict. */
  lemma {:induction false} SubFieldsAccept(parent: string, subs: Dict<Value>, textType: string, acc: Dict<Value>)
    ensures SubFields(parent, subs, textType, acc).Ok? <==> forall i :: 0 <= i < |subs| ==> subs[i].1.VDict?
  {
    if subs != [] && subs[0].1.VDict? {
      assert forall i :: 0 < i < |subs| ==> subs[i] == subs[1..][i - 1];
      var next := if IsText(subs[0].1.entries, textType) then Put(acc, parent + "." + subs[0].0, subs[0].1) else acc;
      SubFieldsAccept(parent, subs[1..], textType, next);
    }
  }

  /** The outer loop succeeds exactly when every property is well shaped. */
  lemma {:induction false} TrueTextAccept(entries: Dict<Value>, textType: string, acc: Dict<Value>)
    ensures TrueText(entries, textType, acc).Ok? <==> forall i :: 0 <= i < |entries| ==> WellShaped(entries[i].1)
  {
    if entries != [] {
      assert forall i :: 0 < i < |entries| ==> entries[i] == entries[1..][i - 1];
      var props := entries[0].1;
      if props.VDict? {
        var subs := Get(props.entries, PropertiesKey);
        if subs.Some? && subs.value.VDict? {
          SubFieldsAccept(entries[0].0, subs.value.entries, textType, acc);
        }
        var next := TextEntry(entries[0].0, props, textType, acc);
        if next.Ok? {
          TrueTextAccept(entries[1..], textType, next.value);
        }
      }
    }
  }

  /** The text-typed subfields, each under its "parent.sub" name. */
  function SubEntries(parent: string, subs: Dict<Value>, textType: string): set<(string, Value)>
  {
    set s | s in subs && s.1.VDict? && IsText(s.1.entries, textType) :: (parent + "." + s.0, s.1)
  }

  /** The "parent.sub" names of the text-typed subfields. */
  function SubKeys(parent: string, subs: Dict<Value>, textType: string): set<string>
  {
    set e | e in SubEntries(parent, subs, textType) :: e.0
  }

  /** The text-typed subfield names of a list of subfields: those of its first, then those of the rest. */
  lemma SubKeysSplit(parent: string, subs: Dict<Value>, textType: string)
    requires subs != []
    ensures SubKeys(parent, subs, textType) ==
              (if subs[0].1.VDict? && IsText(subs[0].1.entries, textType) then {parent + "." + subs[0].0} else {})
              + SubKeys(parent, subs[1..], textType)
  {
    assert forall s :: s in subs <==> s == subs[0] || s in subs[1..];
  }

  /** The inner loop adds exactly the "parent.sub" names of the text-typed subfields. */
  lemma {:induction false} SubFieldsKeys(parent: string, subs: Dict<Value>, textType: string, acc: Dict<Value>)
    requires SubFields(parent, subs, textType, acc).Ok?
    ensures Keys(SubFields(parent, subs, textType, acc).value) == Keys(acc) + SubKeys(parent, subs, textType)
  {
    if subs != [] {
      var text := IsText(subs[0].1.entries, textType);
      var next := if text then Put(acc, parent + "." + subs[0].0, subs[0].1) else acc;
      if text {
        PutKeys(acc, parent + "." + subs[0].0, subs[0].1);
      }
      SubFieldsKeys(parent, subs[1..], textType, next);
      SubKeysSplit(parent, subs, textType);
    }
  }

  /** The entries one property contributes: itself if it is a flat text field, else its text subfields. */
  function EntryEntries(e: (string, Value), textType: string): set<(string, Value)>
  {
    if !e.1.VDict? then {}
    else
      match Get(e.1.entries, PropertiesKey)
      case None => if IsText(e.1.entries, textType) then {e} else {}
      case Some(subs) => if subs.VDict? then SubEntries(e.0, subs.entries, textType) else {}
  }

  /** The names one property contributes. */
  function EntryKeys(e: (string, Value), textType: string): set<string>
  {
    set x | x in EntryEntries(e, textType) :: x.0
  }

  /** The names of all flat text fields and all "parent.sub" text subfields. */
  function TextKeys(entries: Dict<Value>, textType: string): set<string>
  {
    set e, k | e in entries && k in EntryKeys(e, textType) :: k
  }

  /** One property adds exactly the names it contributes. */
  lemma TextEntryKeys(name: string, props: Value, textType: string, acc: Dict<Value>)
    requires TextEntry(name, props, textType, acc).Ok?
    ensures Keys(TextEntry(name, props, textType, acc).value) == Keys(acc) + EntryKeys((name, props), textType)
  {
    var subs := Get(props.entries, PropertiesKey);
    if subs.Some? {
      SubFieldsKeys(name, subs.value.entries, textType, acc);
    } else if IsText(props.entries, textType) {
      PutKeys(acc, name, props);
    }
  }

  /** The names of a list of properties: those of its first, then those of the rest. */
  lemma TextKeysSplit(entries: Dict<Value>, textType: string)
    requires entries != []
    ensures TextKeys(entries, textType) == EntryKeys(entries[0], textType) + TextKeys(entries[1..], textType)
  {
    assert forall e :: e in entries <==> e == entries[0] || e in entries[1..];
  }

  /** The outer loop adds exactly the flat text fields and the text subfields. */
  lemma {:induction false} TrueTextKeys(entries: Dict<Value>, textType: string, acc: Dict<Value>)
    requires TrueText(entries, textType, acc).Ok?
    ensures Keys(TrueText(entries, textType, acc).value) == Keys(acc) + TextKeys(entries, textType)
  {
    if entries != [] {
      var next := TextEntry(entries[0].0, entries[0].1, textType, acc);
      TextEntryKeys(entries[0].0, entries[0].1, textType, acc);
      TrueTextKeys(entries[1..], textType, next.value);
      TextKeysSplit(entries, textType);
    }
  }

  /** Every entry the inner loop leaves was there before or is a text subfield under its "parent.sub" name. */
  lemma {:induction false} SubFieldsEntries(parent: string, subs: Dict<Value>, textType: string, acc: Dict<Value>)
    requires SubFields(parent, subs, textType, acc).Ok?
    ensures var r := SubFields(parent, subs, textType, acc).value;
            forall i :: 0 <= i < |r| ==> r[i] in acc || r[i] in SubEntries(parent, subs, textType)
  {
    if subs != [] {
      var text := IsText(subs[0].1.entries, textType);
      var next := if text then Put(acc, parent + "." + subs[0].0, subs[0].1) else acc;
      if text {
        PutEntries(acc, parent + "." + subs[0].0, subs[0].1);
      }
      SubFieldsEntries(parent, subs[1..], textType, next);
      assert forall s :: s in subs[1..] ==> s in subs;
    }
  }

  /**
   * Every entry `get_true_text_properties` returns is a flat text property as it is, or a text
   * subfield under its "parent.sub" name.
   */
  lemma {:induction false} TrueTextEntries(entries: Dict<Value>, textType: string, acc: Dict<Value>)
    requires TrueText(entries, textType, acc).Ok?
    ensures var r := TrueText(entries, textType, acc).value;
            forall i :: 0 <= i < |r| ==> r[i] in acc || exists p :: p in entries && r[i] in EntryEntries(p, textType)
  {
    if entries != [] {
      var props := entries[0].1;
      var next := TextEntry(entries[0].0, props, textType, acc);
      var subs := Get(props.entries, PropertiesKey);
      if subs.Some? {
        SubFieldsEntries(entries[0].0, subs.value.entries, textType, acc);
      } else if IsText(props.entries, textType) {
        PutEntries(acc, entries[0].0, props);
      }
      assert forall i :: 0 <= i < |next.value| ==> next.value[i] in acc || next.value[i] in EntryEntries(entries[0], textType);
      TrueTextEntries(entries[1..], textType, next.value);
      assert forall p :: p in entries[1..] ==> p in entries;
    }
  }

  /**
   * `get_true_text_properties` succeeds exactly when every non-vector property is well shaped,
   * and then returns exactly the names of the flat text fields and the "parent.sub" names of
   * the text subfields, each with its own properties.
   */
  lemma TrueTextPropertiesSpec(properties: Dict<Value>, keys: InfoKeys)
    ensures var text := TextProperties(properties, keys);
            TrueTextProperties(properties, keys).Ok? <==> forall i :: 0 <= i < |text| ==> WellShaped(text[i].1)
    ensures var r := TrueTextProperties(properties, keys);
            r.Ok? ==> Keys(r.value) == TextKeys(TextProperties(properties, keys), keys.textType)
    ensures var r := TrueTextProperties(properties, keys);
            r.Ok? ==> forall i :: 0 <= i < |r.value| ==>
              exists p :: p in TextProperties(properties, keys) && r.value[i] in EntryEntries(p, keys.textType)
  {
    var text := TextProperties(properties, keys);
    TrueTextAccept(text, keys.textType, []);
    if TrueText(text, keys.textType, []).Ok? {
      TrueTextKeys(text, keys.textType, []);
      TrueTextEntries(text, keys.textType, []);
    }
  }
}
