/**
 * `_available_models`, the module-level dict of loaded models keyed by their cache key, and the
 * two operations that delete from it: `eject_model` and the eviction in
 * `_validate_model_into_device`, which frees room on a device by deleting its least recently
 * used models.
 */
module ModelCache {
  import opened Wrappers
  import Seqs
  import opened PyDict
  import opened Sorting
  import opened ModelProperties

  /** An entry of the cache: when the model was last used and its recorded size. The loaded model object is not part of this model. */
  datatype CachedModel = CachedModel(mostRecentlyUsed: real, modelSize: Option<real>)

  /** `MARQO_MAX_CUDA_MODEL_MEMORY`, `MARQO_MAX_CPU_MODEL_MEMORY` and `DEFAULT_MODEL_SIZE`. */
  datatype Limits = Limits(cuda: real, cpu: real, defaultSize: real)

  /** `entry.get("model_size", DEFAULT_MODEL_SIZE)`. */
  function SizeOf(m: CachedModel, limits: Limits): real
  {
    if m.modelSize.Some? then m.modelSize.value else limits.defaultSize
  }

  /** The memory taken by the cached models whose key ends with `suffix`. */
  function Used(models: Dict<CachedModel>, suffix: string, limits: Limits): real
  {
    if models == [] then 0.0
    else (if EndsWith(models[0].0, suffix) then SizeOf(models[0].1, limits) else 0.0) + Used(models[1..], suffix, limits)
  }

  /** The suffix of the keys that share a device's memory: the device itself for cuda, "cpu" for cpu devices. */
  function DeviceSuffix(device: string): Option<string>
  {
    if "cuda" <= device then Some(device) else if "cpu" <= device then Some("cpu") else None
  }

  /** The memory threshold of a cuda or cpu device. */
  function Threshold(device: string, limits: Limits): real
  {
    if "cuda" <= device then limits.cuda else limits.cpu
  }

  /**
   * `_check_memory_threshold_for_model`: an error for an unknown device or a model larger than
   * the threshold, otherwise whether the model fits beside the cached ones.
   */
  function MemoryCheck(models: Dict<CachedModel>, device: string, size: real, limits: Limits): (r: Result<bool, S2Error>)
    ensures DeviceSuffix(device).None? ==> r == Err(UnknownDevice(device))
    ensures DeviceSuffix(device).Some? && size > Threshold(device, limits) ==> r == Err(ModelTooLarge)
    ensures r.Ok? <==> DeviceSuffix(device).Some? && size <= Threshold(device, limits)
    ensures r == Ok(true) <==>
              DeviceSuffix(device).Some? && size <= Threshold(device, limits) &&
              Used(models, DeviceSuffix(device).value, limits) + size < Threshold(device, limits)
  {
    match DeviceSuffix(device)
    case None => Err(UnknownDevice(device))
    case Some(suffix) =>
      var threshold := Threshold(device, limits);
      if size > threshold then Err(ModelTooLarge) else Ok(Used(models, suffix, limits) + size < threshold)
  }

  /** The keys `eject_model` accepts: those that start with the model name and end with the device. */
  predicate Ejectable(key: string, modelName: string, device: string)
  {
    modelName <= key && EndsWith(key, device)
  }

  /** The position of the first ejectable key. */
  function FirstEjectable(models: Dict<CachedModel>, modelName: string, device: string): (r: Option<nat>)
    ensures r.Some? ==> r.value < |models| && Ejectable(models[r.value].0, modelName, device)
    ensures r.Some? ==> forall j :: 0 <= j < r.value ==> !Ejectable(models[j].0, modelName, device)
    ensures r.None? <==> forall j :: 0 <= j < |models| ==> !Ejectable(models[j].0, modelName, device)
  {
    if models == [] then None
    else if Ejectable(models[0].0, modelName, device) then Some(0)
    else
      match FirstEjectable(models[1..], modelName, device)
      case None => None
      case Some(j) => Some(j + 1)
  }

  /** A model cached under its own cache key can be ejected by its name and device. */
  lemma CachedModelEjectable(models: Dict<CachedModel>, modelName: string, properties: Option<Dict<Value>>, device: string,
                             repr: Value -> string)
    requires CacheKey(modelName, properties, device, repr).Ok?
    requires HasKey(models, CacheKey(modelName, properties, device, repr).value)
    ensures FirstEjectable(models, modelName, device).Some?
  {
    var key := CacheKey(modelName, properties, device, repr).value;
    var i :| 0 <= i < |models| && models[i].0 == key;
    assert EndsWith(key, device) by {
      assert EndsWith(key, Separator + device);
      assert key[|key| - |device|..] == (Separator + device)[|Separator|..];
    }
    assert Ejectable(models[i].0, modelName, device);
  }

  /** `del d[k]` for a key the cache holds; keys that are gone already are skipped. */
  function Delete(d: Dict<CachedModel>, k: string): (r: Dict<CachedModel>)
    requires UniqueKeys(d)
    ensures UniqueKeys(r)
    ensures forall k' :: Get(r, k') == if k' == k then None else Get(d, k')
  {
    if HasKey(d, k) then Remove(d, k) else d
  }

  /** Deleting a model frees exactly its size on the devices its key belongs to. */
  lemma {:induction false} UsedAfterDelete(d: Dict<CachedModel>, k: string, suffix: string, limits: Limits)
    requires UniqueKeys(d) && HasKey(d, k)
    ensures Used(Delete(d, k), suffix, limits) ==
              Used(d, suffix, limits) - (if EndsWith(k, suffix) then SizeOf(Get(d, k).value, limits) else 0.0)
  {
    if d[0].0 != k {
      assert forall i :: 0 < i < |d| ==> d[i] == d[1..][i - 1];
      assert HasKey(d[1..], k) && UniqueKeys(d[1..]);
      UsedAfterDelete(d[1..], k, suffix, limits);
      var rest := Remove(d[1..], k);
      assert Remove(d, k) == [d[0]] + rest;
      assert ([d[0]] + rest)[1..] == rest;
    }
  }

  /** Deletes the keys `ks` in order. */
  function DeleteAll(d: Dict<CachedModel>, ks: seq<string>): (r: Dict<CachedModel>)
    requires UniqueKeys(d)
    ensures UniqueKeys(r)
    decreases |ks|
  {
    if ks == [] then d else DeleteAll(Delete(d, ks[0]), ks[1..])
  }

  /** After deleting `ks`, exactly the keys of `ks` are gone and every other entry is unchanged. */
  lemma {:induction false} DeleteAllGet(d: Dict<CachedModel>, ks: seq<string>, k: string)
    requires UniqueKeys(d)
    ensures Get(DeleteAll(d, ks), k) == if k in ks then None else Get(d, k)
    decreases |ks|
  {
    if ks != [] {
      DeleteAllGet(Delete(d, ks[0]), ks[1..], k);
      assert k in ks <==> k == ks[0] || k in ks[1..];
    }
  }

  /** The keys of the cache whose key ends with the device, in the cache's order. */
  function DeviceKeys(models: Dict<CachedModel>, device: string): (r: seq<string>)
    ensures forall k :: k in r <==> HasKey(models, k) && EndsWith(k, device)
  {
    if models == [] then []
    else
      var rest := DeviceKeys(models[1..], device);
      assert forall k :: HasKey(models, k) <==> k == models[0].0 || HasKey(models[1..], k) by {
        assert forall i :: 0 < i < |models| ==> models[i] == models[1..][i - 1];
      }
      if EndsWith(models[0].0, device) then [models[0].0] + rest else rest
  }

  /** When the model under `k` was last used. */
  function LastUsed(models: Dict<CachedModel>, k: string): real
  {
    match Get(models, k)
    case Some(m) => m.mostRecentlyUsed
    case None => 0.0
  }

  /** The device's keys sorted by when they were last used, least recently first. */
  function EvictionOrder(models: Dict<CachedModel>, device: string): (r: seq<string>)
    ensures multiset(r) == multiset(DeviceKeys(models, device))
    ensures SortedBy(r, k => LastUsed(models, k))
  {
    SortBy(DeviceKeys(models, device), k => LastUsed(models, k))
  }

  /**
   * The eviction loop: deletes the keys of `order` one by one and stops as soon as the model
   * fits (or the check raises); when every key is deleted and the model still does not fit, the
   * final check raises. Returns the cache after the loop and the outcome.
   */
  function Evict(models: Dict<CachedModel>, order: seq<string>, device: string, size: real, limits: Limits)
    : (Dict<CachedModel>, Result<bool, S2Error>)
    requires UniqueKeys(models)
    decreases |order|
  {
    if order == [] then (models, Err(NotEnoughRoom))
    else
      var rest := Delete(models, order[0]);
      var fits := MemoryCheck(rest, device, size, limits);
      if fits != Ok(false) then (rest, fits) else Evict(rest, order[1..], device, size, limits)
  }

  /** How many keys of `order` the eviction loop deletes. */
  function EvictCount(models: Dict<CachedModel>, order: seq<string>, device: string, size: real, limits: Limits): (n: nat)
    requires UniqueKeys(models)
    ensures n <= |order|
    decreases |order|
  {
    if order == [] then 0
    else
      var rest := Delete(models, order[0]);
      if MemoryCheck(rest, device, size, limits) != Ok(false) then 1 else 1 + EvictCount(rest, order[1..], device, size, limits)
  }

  /**
   * The eviction deletes a prefix of the order: it stops at the first prefix after which the
   * model fits, and deletes the whole order only when the model never fits.
   */
  lemma {:induction false} EvictDeletesPrefix(models: Dict<CachedModel>, order: seq<string>, device: string, size: real, limits: Limits)
    requires UniqueKeys(models)
    ensures var n := EvictCount(models, order, device, size, limits);
            Evict(models, order, device, size, limits).0 == DeleteAll(models, order[..n])
    ensures var n := EvictCount(models, order, device, size, limits);
            forall j :: 0 < j < n ==> MemoryCheck(DeleteAll(models, order[..j]), device, size, limits) == Ok(false)
    ensures var (after, r) := Evict(models, order, device, size, limits);
            r == Ok(true) ==> MemoryCheck(after, device, size, limits) == Ok(true)
    ensures Evict(models, order, device, size, limits).1 == Err(NotEnoughRoom) ==>
              EvictCount(models, order, device, size, limits) == |order|
    decreases |order|
  {
    if order != [] {
      var rest := Delete(models, order[0]);
      var n := EvictCount(models, order, device, size, limits);
      assert DeleteAll(models, order[..1]) == rest by {
        assert order[..1][1..] == [];
      }
      if MemoryCheck(rest, device, size, limits) == Ok(false) {
        EvictDeletesPrefix(rest, order[1..], device, size, limits);
        assert n == 1 + EvictCount(rest, order[1..], device, size, limits);
        forall j | 0 < j <= n
          ensures DeleteAll(models, order[..j]) == DeleteAll(rest, order[1..][..j - 1])
        {
          assert order[..j][0] == order[0] && order[..j][1..] == order[1..][..j - 1];
        }
        forall j | 0 < j < n
          ensures MemoryCheck(DeleteAll(models, order[..j]), device, size, limits) == Ok(false)
        {
          if j > 1 {
            assert 0 < j - 1 < n - 1;
          }
        }
      }
    }
  }

  /** `_validate_model_into_device` from the first memory check on: the cache afterwards and the outcome. */
  function MakeRoomSpec(models: Dict<CachedModel>, device: string, size: real, limits: Limits): (Dict<CachedModel>, Result<bool, S2Error>)
    requires UniqueKeys(models)
  {
    var fits := MemoryCheck(models, device, size, limits);
    if fits != Ok(false) then (models, fits)
    else Evict(models, EvictionOrder(models, device), device, size, limits)
  }

  /** A model larger than the device's threshold, or an unknown device, is refused before anything is evicted. */
  lemma RefusedWithoutEviction(models: Dict<CachedModel>, device: string, size: real, limits: Limits)
    requires UniqueKeys(models)
    requires DeviceSuffix(device).None? || size > Threshold(device, limits)
    ensures MakeRoomSpec(models, device, size, limits).0 == models
    ensures MakeRoomSpec(models, device, size, limits).1 ==
              if DeviceSuffix(device).None? then Err(UnknownDevice(device)) else Err(ModelTooLarge)
  {
  }

  /**
   * Eviction is least recently used first: only keys of the device are deleted, every one of
   * them was used no later than every key of the device that stays, and when the model still
   * does not fit, no key of the device stays.
   */
  lemma EvictsLeastRecentlyUsed(models: Dict<CachedModel>, device: string, size: real, limits: Limits, gone: string, kept: string)
    requires UniqueKeys(models)
    requires HasKey(models, gone) && !HasKey(MakeRoomSpec(models, device, size, limits).0, gone)
    requires HasKey(MakeRoomSpec(models, device, size, limits).0, kept) && EndsWith(kept, device)
    ensures EndsWith(gone, device)
    ensures LastUsed(models, gone) <= LastUsed(models, kept)
    ensures MakeRoomSpec(models, device, size, limits).1 != Err(NotEnoughRoom)
  {
    var order := EvictionOrder(models, device);
    var n := EvictCount(models, order, device, size, limits);
    var after := MakeRoomSpec(models, device, size, limits).0;
    assert MemoryCheck(models, device, size, limits) == Ok(false);
    EvictDeletesPrefix(models, order, device, size, limits);
    DeleteAllGet(models, order[..n], gone);
    DeleteAllGet(models, order[..n], kept);
    assert gone in order[..n];
    assert kept !in order[..n];
    assert kept in multiset(order);
    var i :| 0 <= i < n && order[i] == gone;
    var j :| 0 <= j < |order| && order[j] == kept;
    assert gone in multiset(DeviceKeys(models, device));
    Seqs.PastPrefix(order, n, j);
  }

  /** The cache as a mutable object, as the module-level `_available_models` dict is. */
  class AvailableModels {
    var models: Dict<CachedModel>

    ghost predicate Valid()
      reads this
    {
      UniqueKeys(models)
    }

    constructor ()
      ensures models == [] && Valid()
    {
      models := [];
    }

    /**
     * `eject_model`: deletes the first model whose key starts with the name and ends with the
     * device, or reports that none is cached.
     */
    method Eject(modelName: string, device: string) returns (r: Result<(), S2Error>)
      requires Valid()
      modifies this
      ensures Valid()
      ensures var i := FirstEjectable(old(models), modelName, device);
              if i.Some? then r == Ok(()) && models == Remove(old(models), old(models)[i.value].0)
              else r == Err(ModelNotInCache(modelName, device)) && models == old(models)
    {
      var i := 0;
      while i < |models| && !Ejectable(models[i].0, modelName, device)
        invariant 0 <= i <= |models|
        invariant forall j :: 0 <= j < i ==> !Ejectable(models[j].0, modelName, device)
      {
        i := i + 1;
      }
      if i == |models| {
        return Err(ModelNotInCache(modelName, device));
      }
      assert HasKey(models, models[i].0);
      models := Remove(models, models[i].0);
      r := Ok(());
    }

    /**
     * The eviction of `_validate_model_into_device` for a model of size `size` on `device`:
     * nothing is deleted when the model fits or the check raises; otherwise the device's models
     * are deleted least recently used first until it fits.
     */
    method MakeRoom(device: string, size: real, limits: Limits) returns (r: Result<bool, S2Error>)
      requires Valid()
      modifies this
      ensures Valid()
      ensures (models, r) == MakeRoomSpec(old(models), device, size, limits)
    {
      var fits := MemoryCheck(models, device, size, limits);
      if fits != Ok(false) {
        return fits;
      }
      var start := models;
      var order := SortBy(DeviceKeys(start, device), k => LastUsed(start, k));
      var i := 0;
      while i < |order|
        invariant 0 <= i <= |order|
        invariant UniqueKeys(models)
        invariant Evict(models, order[i..], device, size, limits) == Evict(start, order, device, size, limits)
      {
        Seqs.DropFirst(order, i);
        models := Delete(models, order[i]);
        fits := MemoryCheck(models, device, size, limits);
        if fits != Ok(false) {
          return fits;
        }
        i := i + 1;
      }
      // The final check sees the cache the last check in the loop saw, so it does not fit either.
      r := Err(NotEnoughRoom);
    }
  }
}
