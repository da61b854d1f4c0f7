/**
 * The model registry bookkeeping of `s2_inference`: the key a loaded model is cached under,
 * the validation of user-given model properties (with the defaults it writes into them), and
 * the size a model is assumed to take on its device.
 */
module ModelProperties {
  import opened Wrappers
  import opened PyDict
  import opened Decimal
  import Filtering

  /** The errors of the model registry. */
  datatype S2Error =
    | MissingKey(key: string)            // InvalidModelPropertiesError: a required key is missing
    | NoModelNameMismatch(name: string)  // InvalidModelPropertiesError: type no_model without model no_model
    | InvalidModelType                   // InvalidModelPropertiesError: a type outside the known ones
    | InvalidDimensions                  // InvalidModelPropertiesError: dimensions not a positive int
    | InvalidMultimodalProperties        // the validation error of MultimodalModelProperties
    | UnknownModel(name: string)         // UnknownModelError
    | TypeError                          // Python's TypeError: a str concatenated with another value
    | ModelNotInCache(name: string, device: string)  // ModelNotInCacheError
    | ModelTooLarge                      // ModelCacheManagementError: the model exceeds the device threshold
    | NotEnoughRoom                      // ModelCacheManagementError: evicting every model on the device is not enough
    | UnknownDevice(device: string)      // ModelCacheManagementError: neither a cuda nor a cpu device

  /** The members of `ModelType`; their string values are a parameter `names`, as the enum is not part of this model. */
  datatype ModelType =
    | Sbert | OpenClip | Clip | HfModel | NoModel | Test | Random | MultilingualClip
    | Fp16Clip | SbertOnnx | ClipOnnx | LanguageBind

  const NameKey := "name"
  const DimensionsKey := "dimensions"
  const TypeKey := "type"
  const TokensKey := "tokens"
  const ModelSizeKey := "model_size"
  const Separator := "||"

  /** `d.get(k, default)`. */
  function GetOr(d: Dict<Value>, k: string, default: Value): (r: Value)
    ensures HasKey(d, k) ==> Some(r) == Get(d, k)
    ensures !HasKey(d, k) ==> r == default
  {
    match Get(d, k)
    case Some(v) => v
    case None => default
  }

  /** `s.endswith(suffix)`. */
  predicate EndsWith(s: string, suffix: string)
  {
    |suffix| <= |s| && s[|s| - |suffix|..] == suffix
  }

  /** `str(v)`; the text of a float, a list or a dict is Python's repr, given as `repr`. */
  function PyStr(v: Value, repr: Value -> string): string
  {
    match v
    case VNone => "None"
    case VBool(b) => if b then "True" else "False"
    case VInt(i) => IntToString(i)
    case VStr(s) => s
    case _ => repr(v)
  }

  /** `model_properties`, with `None` replaced by an empty dict. */
  function OrEmpty(properties: Option<Dict<Value>>): Dict<Value>
  {
    if properties.Some? then properties.value else []
  }

  /** `a + "||" + b`. */
  function Joined(a: string, b: string): (r: string)
    ensures a + Separator <= r
    ensures EndsWith(r, Separator + b)
  {
    assert a + Separator + b == a + (Separator + b);
    a + Separator + b
  }

  /** `_create_model_cache_key`: model name, properties' name, dimensions, type and tokens, and the device, joined by "||". */
  function CacheKey(modelName: string, properties: Option<Dict<Value>>, device: string, repr: Value -> string): (r: Result<string, S2Error>)
    ensures r.Ok? ==> modelName + Separator <= r.value && EndsWith(r.value, Separator + device)
    ensures r.Err? <==> !GetOr(OrEmpty(properties), NameKey, VStr("")).VStr? || !GetOr(OrEmpty(properties), TypeKey, VStr("")).VStr?
  {
    var props := OrEmpty(properties);
    var name := GetOr(props, NameKey, VStr(""));
    var modelType := GetOr(props, TypeKey, VStr(""));
    if !name.VStr? || !modelType.VStr? then Err(TypeError)
    else
      var dimensions := PyStr(GetOr(props, DimensionsKey, VStr("")), repr);
      var tokens := PyStr(GetOr(props, TokensKey, VStr("")), repr);
      var head := Joined(Joined(Joined(Joined(modelName, name.s), dimensions), modelType.s), tokens);
      JoinedPrefix(modelName + Separator, Joined(Joined(Joined(modelName, name.s), dimensions), modelType.s), tokens);
      JoinedPrefix(modelName + Separator, head, device);
      Ok(Joined(head, device))
  }

  /** Appending to a key keeps its prefix. */
  lemma JoinedPrefix(p: string, a: string, b: string)
    requires p <= a
    ensures p <= Joined(a, b)
  {
  }

  /** Without properties every middle part of the key is empty. */
  lemma CacheKeyWithoutProperties(modelName: string, device: string, repr: Value -> string)
    ensures CacheKey(modelName, None, device, repr) == Ok(Joined(Joined(Joined(Joined(Joined(modelName, ""), ""), ""), ""), device))
  {
  }

  /** Which branch of `validate_model_properties` a type value takes. */
  datatype TypeBranch = DefaultSbert | ClipLike | HfLike | NoModelLike | Unchecked | Multimodal | UnknownType

  /** The branch of the type value `t`: the first group of `ModelType` values it equals. */
  function Branch(t: Value, names: ModelType -> string): TypeBranch
  {
    if t == VNone || t == VStr(names(Sbert)) then DefaultSbert
    else if t == VStr(names(OpenClip)) || t == VStr(names(Clip)) then ClipLike
    else if t == VStr(names(HfModel)) then HfLike
    else if t == VStr(names(NoModel)) then NoModelLike
    else if t in {VStr(names(Test)), VStr(names(Random)), VStr(names(MultilingualClip)), VStr(names(Fp16Clip)),
                  VStr(names(SbertOnnx)), VStr(names(ClipOnnx))} then Unchecked
    else if t == VStr(names(LanguageBind)) then Multimodal
    else UnknownType
  }

  /** The keys each branch requires, in the order they are checked. */
  function RequiredKeys(b: TypeBranch): seq<string>
  {
    match b
    case DefaultSbert => [DimensionsKey, NameKey]
    case ClipLike => [NameKey, DimensionsKey]
    case HfLike => [DimensionsKey]
    case NoModelLike => [DimensionsKey]
    case _ => []
  }

  /** The defaults an sbert or untyped model's properties receive: the sbert type and the default sequence length. */
  function FillDefaults(props: Dict<Value>, names: ModelType -> string, defaultTokens: int): (r: Dict<Value>)
    ensures Branch(GetOr(props, TypeKey, VNone), names) == DefaultSbert ==>
              HasKey(r, TypeKey) && HasKey(r, TokensKey) &&
              (HasKey(props, TypeKey) ==> Get(r, TypeKey) == Get(props, TypeKey)) &&
              (!HasKey(props, TypeKey) ==> Get(r, TypeKey) == Some(VStr(names(Sbert)))) &&
              (HasKey(props, TokensKey) ==> Get(r, TokensKey) == Get(props, TokensKey)) &&
              (!HasKey(props, TokensKey) ==> Get(r, TokensKey) == Some(VInt(defaultTokens)))
    ensures forall k :: k != TypeKey && k != TokensKey ==> Get(r, k) == Get(props, k)
    ensures Branch(GetOr(props, TypeKey, VNone), names) != DefaultSbert ==> r == props
  {
    if Branch(GetOr(props, TypeKey, VNone), names) != DefaultSbert then props
    else
      var typed := if HasKey(props, TypeKey) then props else Put(props, TypeKey, VStr(names(Sbert)));
      if HasKey(typed, TokensKey) then typed else Put(typed, TokensKey, VInt(defaultTokens))
  }

  /** Filling in the defaults adds no key but "type" and "tokens". */
  lemma FillDefaultsKeepsKey(props: Dict<Value>, names: ModelType -> string, defaultTokens: int, k: string)
    requires k != TypeKey && k != TokensKey
    ensures HasKey(FillDefaults(props, names, defaultTokens), k) == HasKey(props, k)
  {
    assert Get(FillDefaults(props, names, defaultTokens), k) == Get(props, k);
  }

  /** The first of `keys` missing from `props`. */
  function FirstMissing(keys: seq<string>, props: Dict<Value>): (r: Option<string>)
    ensures r.None? <==> forall i :: 0 <= i < |keys| ==> HasKey(props, keys[i])
    ensures r.Some? ==> r.value in keys && !HasKey(props, r.value)
  {
    if keys == [] then None
    else if !HasKey(props, keys[0]) then Some(keys[0])
    else FirstMissing(keys[1..], props)
  }

  /** `_validate_model_properties_dimension`: a positive int (True counts as 1). */
  predicate ValidDimensions(dimensions: Value)
  {
    (dimensions.VInt? && dimensions.i >= 1) || dimensions == VBool(true)
  }

  /** The checks of `validate_model_properties` on properties whose defaults are filled in, for the branch `branch`. */
  function CheckBranch(branch: TypeBranch, modelName: string, filled: Dict<Value>, multimodalValid: Dict<Value> -> bool)
    : (r: Result<Dict<Value>, S2Error>)
    ensures r.Ok? ==> r.value == filled && ValidDimensions(GetOr(filled, DimensionsKey, VNone))
    ensures r.Ok? ==> forall k :: k in RequiredKeys(branch) ==> HasKey(filled, k)
  {
    if branch == UnknownType then Err(InvalidModelType)
    else if branch == NoModelLike && modelName != "no_model" then Err(NoModelNameMismatch(modelName))
    else if branch == Multimodal && !multimodalValid(filled) then Err(InvalidMultimodalProperties)
    else
      match FirstMissing(RequiredKeys(branch), filled)
      case Some(k) => Err(MissingKey(k))
      case None =>
        if !ValidDimensions(GetOr(filled, DimensionsKey, VNone)) then Err(InvalidDimensions) else Ok(filled)
  }

  /**
   * `validate_model_properties` for given properties `props`: the defaults filled in, then
   * the branch's own check, the required keys and the dimensions. `multimodalValid` stands for
   * the construction of `MultimodalModelProperties`.
   */
  function CheckProperties(modelName: string, props: Dict<Value>, names: ModelType -> string, defaultTokens: int,
                           multimodalValid: Dict<Value> -> bool): (r: Result<Dict<Value>, S2Error>)
    ensures r.Ok? ==> r.value == FillDefaults(props, names, defaultTokens)
    ensures r.Ok? ==> ValidDimensions(GetOr(r.value, DimensionsKey, VNone))
    ensures r.Ok? ==> forall k :: k in RequiredKeys(Branch(GetOr(props, TypeKey, VNone), names)) ==> HasKey(r.value, k)
    ensures Branch(GetOr(props, TypeKey, VNone), names) == UnknownType ==> r == Err(InvalidModelType)
  {
    CheckBranch(Branch(GetOr(props, TypeKey, VNone), names), modelName, FillDefaults(props, names, defaultTokens), multimodalValid)
  }

  /**
   * `validate_model_properties` without properties: the registry's properties for the model
   * (`get_model_properties_from_registry`), which are validated the same way.
   */
  function RegistryProperties(modelName: string, registry: map<string, Dict<Value>>, names: ModelType -> string,
                              defaultTokens: int, multimodalValid: Dict<Value> -> bool): (r: Result<Dict<Value>, S2Error>)
    ensures modelName !in registry ==> r == Err(UnknownModel(modelName))
    ensures r.Ok? ==> ValidDimensions(GetOr(r.value, DimensionsKey, VNone))
  {
    if modelName !in registry then Err(UnknownModel(modelName))
    else CheckProperties(modelName, registry[modelName], names, defaultTokens, multimodalValid)
  }

  /** Properties of an sbert or untyped model must hold "dimensions" and "name". */
  lemma SbertRequiresNameAndDimensions(modelName: string, props: Dict<Value>, names: ModelType -> string, defaultTokens: int,
                                       multimodalValid: Dict<Value> -> bool)
    requires Branch(GetOr(props, TypeKey, VNone), names) == DefaultSbert
    ensures CheckProperties(modelName, props, names, defaultTokens, multimodalValid).Ok? ==>
              HasKey(props, DimensionsKey) && HasKey(props, NameKey)
    ensures !HasKey(props, DimensionsKey) ==> CheckProperties(modelName, props, names, defaultTokens, multimodalValid) == Err(MissingKey(DimensionsKey))
    ensures HasKey(props, DimensionsKey) && !HasKey(props, NameKey) ==>
              CheckProperties(modelName, props, names, defaultTokens, multimodalValid) == Err(MissingKey(NameKey))
  {
    assert DimensionsKey != TypeKey && DimensionsKey != TokensKey by {
      assert |DimensionsKey| != |TypeKey| && |DimensionsKey| != |TokensKey|;
    }
    assert NameKey != TypeKey && NameKey != TokensKey by {
      assert NameKey[0] != TypeKey[0] && |NameKey| != |TokensKey|;
    }
    FillDefaultsKeepsKey(props, names, defaultTokens, DimensionsKey);
    FillDefaultsKeepsKey(props, names, defaultTokens, NameKey);
    SbertCheck(modelName, FillDefaults(props, names, defaultTokens), multimodalValid);
  }

  /** The sbert branch checks "dimensions", then "name", then the dimensions' value. */
  lemma SbertCheck(modelName: string, filled: Dict<Value>, multimodalValid: Dict<Value> -> bool)
    ensures CheckBranch(DefaultSbert, modelName, filled, multimodalValid) ==
              if !HasKey(filled, DimensionsKey) then Err(MissingKey(DimensionsKey))
              else if !HasKey(filled, NameKey) then Err(MissingKey(NameKey))
              else if !ValidDimensions(GetOr(filled, DimensionsKey, VNone)) then Err(InvalidDimensions)
              else Ok(filled)
  {
    assert RequiredKeys(DefaultSbert) == [DimensionsKey, NameKey];
    assert FirstMissing([DimensionsKey, NameKey], filled) ==
      if !HasKey(filled, DimensionsKey) then Some(DimensionsKey)
      else if !HasKey(filled, NameKey) then Some(NameKey)
      else None;
  }

  /** The clip and open_clip branches check "name", then "dimensions", then the dimensions' value. */
  lemma ClipCheck(modelName: string, filled: Dict<Value>, multimodalValid: Dict<Value> -> bool)
    ensures CheckBranch(ClipLike, modelName, filled, multimodalValid) ==
              if !HasKey(filled, NameKey) then Err(MissingKey(NameKey))
              else if !HasKey(filled, DimensionsKey) then Err(MissingKey(DimensionsKey))
              else if !ValidDimensions(GetOr(filled, DimensionsKey, VNone)) then Err(InvalidDimensions)
              else Ok(filled)
  {
    assert RequiredKeys(ClipLike) == [NameKey, DimensionsKey];
    assert FirstMissing([NameKey, DimensionsKey], filled) ==
      if !HasKey(filled, NameKey) then Some(NameKey)
      else if !HasKey(filled, DimensionsKey) then Some(DimensionsKey)
      else None;
  }

  /** The hf branch, and the no_model branch for the model "no_model", require only valid "dimensions". */
  lemma DimensionsOnlyCheck(branch: TypeBranch, modelName: string, filled: Dict<Value>, multimodalValid: Dict<Value> -> bool)
    requires branch == HfLike || (branch == NoModelLike && modelName == "no_model")
    ensures CheckBranch(branch, modelName, filled, multimodalValid) ==
              if !HasKey(filled, DimensionsKey) then Err(MissingKey(DimensionsKey))
              else if !ValidDimensions(GetOr(filled, DimensionsKey, VNone)) then Err(InvalidDimensions)
              else Ok(filled)
  {
    assert RequiredKeys(branch) == [DimensionsKey];
    assert FirstMissing([DimensionsKey], filled) == if !HasKey(filled, DimensionsKey) then Some(DimensionsKey) else None;
  }

  /** Filling in the defaults a second time changes nothing. */
  lemma FillDefaultsIdempotent(props: Dict<Value>, names: ModelType -> string, defaultTokens: int)
    ensures FillDefaults(FillDefaults(props, names, defaultTokens), names, defaultTokens) == FillDefaults(props, names, defaultTokens)
  {
    var filled := FillDefaults(props, names, defaultTokens);
    if Branch(GetOr(props, TypeKey, VNone), names) == DefaultSbert {
      assert Branch(GetOr(filled, TypeKey, VNone), names) == DefaultSbert;
    }
  }

  /**
   * Validated properties pass validation again unchanged, as the registry's properties do when
   * `get_model_properties_from_registry` has validated them before `validate_model_properties` does.
   */
  lemma CheckPropertiesIdempotent(modelName: string, props: Dict<Value>, names: ModelType -> string, defaultTokens: int,
                                  multimodalValid: Dict<Value> -> bool)
    requires CheckProperties(modelName, props, names, defaultTokens, multimodalValid).Ok?
    ensures var validated := CheckProperties(modelName, props, names, defaultTokens, multimodalValid).value;
            CheckProperties(modelName, validated, names, defaultTokens, multimodalValid) == Ok(validated)
  {
    var filled := FillDefaults(props, names, defaultTokens);
    FillDefaultsIdempotent(props, names, defaultTokens);
    assert Branch(GetOr(filled, TypeKey, VNone), names) == Branch(GetOr(props, TypeKey, VNone), names);
  }

  /** A no_model type is accepted only for the model named "no_model". */
  lemma NoModelNeedsItsName(modelName: string, props: Dict<Value>, names: ModelType -> string, defaultTokens: int,
                            multimodalValid: Dict<Value> -> bool)
    requires Branch(GetOr(props, TypeKey, VNone), names) == NoModelLike
    ensures CheckProperties(modelName, props, names, defaultTokens, multimodalValid).Ok? ==>
              modelName == "no_model" && HasKey(props, DimensionsKey)
  {
  }

  /** The lower-case of an ASCII letter; other characters are kept. */
  function LowerChar(c: char): char
  {
    if 'A' <= c <= 'Z' then (c as int + 32) as char else c
  }

  /**
   * `s.lower().replace("/", "-")`: a name in normal form, with no '/' and no capital letter
   * left, each '/' turned into '-' and every other character kept up to case.
   */
  function NameInfo(s: string): (r: string)
    ensures |r| == |s|
    ensures '/' !in r
    ensures forall i :: 0 <= i < |r| ==> !('A' <= r[i] <= 'Z')
    ensures forall i :: 0 <= i < |s| && s[i] == '/' ==> r[i] == '-'
    ensures forall i :: 0 <= i < |s| && s[i] != '/' ==> LowerChar(r[i]) == LowerChar(s[i])
  {
    seq(|s|, i requires 0 <= i < |s| => if s[i] == '/' then '-' else LowerChar(s[i]))
  }

  /** The normal form is a fixed point: normalising twice is normalising once. */
  lemma NameInfoIdempotent(s: string)
    ensures NameInfo(NameInfo(s)) == NameInfo(s)
  {
  }

  /** Normalising commutes with taking a suffix and a prefix. */
  lemma NameInfoSlices(s: string, n: nat)
    requires n <= |s|
    ensures NameInfo(s)[n..] == NameInfo(s[n..])
    ensures NameInfo(s)[..n] == NameInfo(s[..n])
  {
  }

  /**
   * A name found in the raw model name is found, normalised, in the normalised model name;
   * so a size-table name already in normal form that occurs in the raw name is found by
   * the lookup.
   */
  lemma {:induction false} NameInfoKeepsContains(s: string, n: string)
    requires Filtering.Contains(s, n)
    ensures Filtering.Contains(NameInfo(s), NameInfo(n))
    decreases |s|
  {
    if n <= s {
      NameInfoSlices(s, |n|);
      assert s[..|n|] == n;
    } else {
      NameInfoKeepsContains(s[1..], n);
      NameInfoSlices(s, 1);
    }
  }

  /** A normal-form table name occurring in the raw name occurs in the normalised one. */
  lemma NormalNameFound(s: string, n: string)
    requires NameInfo(n) == n && Filtering.Contains(s, n)
    ensures Filtering.Contains(NameInfo(s), n)
  {
    NameInfoKeepsContains(s, n);
  }

  /** The index of the first entry of the name table whose name occurs in `info`. */
  function FirstContained(table: seq<(string, Value)>, info: string): (r: Option<nat>)
    ensures r.Some? ==> r.value < |table| && Filtering.Contains(info, table[r.value].0)
    ensures r.Some? ==> forall j :: 0 <= j < r.value ==> !Filtering.Contains(info, table[j].0)
    ensures r.None? ==> forall j :: 0 <= j < |table| ==> !Filtering.Contains(info, table[j].0)
  {
    if table == [] then None
    else if Filtering.Contains(info, table[0].0) then Some(0)
    else
      match FirstContained(table[1..], info)
      case None => None
      case Some(j) => Some(j + 1)
  }

  /** `MODEL_NAME_SIZE_MAPPING`, `MODEL_TYPE_SIZE_MAPPING` and `DEFAULT_MODEL_SIZE`; the constants module is not part of this model. */
  datatype SizeTables = SizeTables(byName: seq<(string, Value)>, byType: Dict<Value>, default: Value)

  /**
   * `get_model_size`: an explicit "model_size" first, then the first name-table entry found in
   * the lower-cased name, then the type table, then the default.
   */
  function ModelSize(modelName: string, props: Dict<Value>, tables: SizeTables): (r: Result<Value, S2Error>)
    ensures HasKey(props, ModelSizeKey) ==> r == Ok(Get(props, ModelSizeKey).value)
    ensures !HasKey(props, ModelSizeKey) && GetOr(props, NameKey, VStr("")).VStr? ==>
              var found := FirstContained(tables.byName, NameInfo(modelName + GetOr(props, NameKey, VStr("")).s));
              (found.Some? ==> r == Ok(tables.byName[found.value].1)) &&
              (found.None? && GetOr(props, TypeKey, VNone).VStr? ==>
                 r == Ok(GetOr(tables.byType, GetOr(props, TypeKey, VNone).s, tables.default)))
    ensures !HasKey(props, ModelSizeKey) && !GetOr(props, NameKey, VStr("")).VStr? ==> r == Err(TypeError)
  {
    if HasKey(props, ModelSizeKey) then Ok(Get(props, ModelSizeKey).value)
    else
      var name := GetOr(props, NameKey, VStr(""));
      if !name.VStr? then Err(TypeError)
      else
        match FirstContained(tables.byName, NameInfo(modelName + name.s))
        case Some(j) => Ok(tables.byName[j].1)
        case None =>
          var modelType := GetOr(props, TypeKey, VNone);
          if modelType.VList? || modelType.VDict? then Err(TypeError)
          else if modelType.VStr? then Ok(GetOr(tables.byType, modelType.s, tables.default))
          else Ok(tables.default)
  }

  /**
   * `validate_model_properties`: given properties are completed in place, even when the check
   * then fails; without properties the registry's are used.
   */
  method ValidateModelProperties(modelName: string, props: MutableDict?, registry: map<string, Dict<Value>>,
                                 names: ModelType -> string, defaultTokens: int, multimodalValid: Dict<Value> -> bool)
    returns (r: Result<Dict<Value>, S2Error>)
    modifies props
    ensures props != null ==> props.entries == FillDefaults(old(props.entries), names, defaultTokens)
    ensures props != null ==> r == CheckProperties(modelName, old(props.entries), names, defaultTokens, multimodalValid)
    ensures props == null ==> r == RegistryProperties(modelName, registry, names, defaultTokens, multimodalValid)
  {
    if props == null {
      return RegistryProperties(modelName, registry, names, defaultTokens, multimodalValid);
    }
    ghost var given := props.entries;
    r := CheckProperties(modelName, props.entries, names, defaultTokens, multimodalValid);
    var branch := Branch(GetOr(props.entries, TypeKey, VNone), names);
    if branch == DefaultSbert {
      if !HasKey(props.entries, TypeKey) {
        props.Set(TypeKey, VStr(names(Sbert)));
      }
      if !HasKey(props.entries, TokensKey) {
        props.Set(TokensKey, VInt(defaultTokens));
      }
    }
    assert props.entries == FillDefaults(given, names, defaultTokens);
  }
}
