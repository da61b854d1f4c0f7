/**
 * The index-settings table of the Vespa application package: the current settings
 * of each index by name, plus a per-name history of superseded settings, newest
 * first and at most three long. Saves are optimistic: a save names the version it
 * was derived from and fails when the table has moved on.
 */
module IndexSettings {
  import opened Wrappers
  import Seqs

  /** `_HISTORY_VERSION_LIMIT`: the longest history kept per index name. */
  const HistoryVersionLimit: nat := 3

  /**
   * An index's settings: its name, its version (`None` for a setting never saved),
   * and everything else, which the table only copies.
   */
  datatype IndexSetting = IndexSetting(name: string, version: Option<int>, body: string)

  /** Why a save fails: `OperationConflictError`, or a stored setting without a version (a `TypeError`). */
  datatype StoreError = OperationConflict(name: string, target: int) | VersionMissing(name: string)

  /** The table's state: current settings and histories, by index name. */
  datatype StoreValue = StoreValue(settings: map<string, IndexSetting>, history: map<string, seq<IndexSetting>>)

  /** The version a save of `s` writes: one more than the version it names (`version or 0`). */
  function TargetVersion(s: IndexSetting): int
  {
    (if s.version.Some? then s.version.value else 0) + 1
  }

  /** Python's `s[:n]`. */
  function Prefix<T>(s: seq<T>, n: nat): (r: seq<T>)
    ensures |r| <= n && |r| <= |s|
    ensures r <= s
    ensures |s| <= n ==> r == s
  {
    if |s| <= n then s else s[..n]
  }

  /** The history of `name` in `v`, empty when there is none. */
  function HistoryOf(v: StoreValue, name: string): seq<IndexSetting>
  {
    if name in v.history then v.history[name] else []
  }

  /**
   * `_move_to_history(name)`: the current setting of `name` goes to the front of its
   * history, which keeps at most the limit; nothing else changes.
   */
  function MoveToHistory(v: StoreValue, name: string): (r: StoreValue)
    requires name in v.settings
    ensures r.settings == v.settings
    ensures name in r.history && 1 <= |r.history[name]| <= HistoryVersionLimit
    ensures r.history[name][0] == v.settings[name]
    ensures r.history[name][1..] == Prefix(HistoryOf(v, name), HistoryVersionLimit - 1)
    ensures r.history - {name} == v.history - {name}
  {
    if name in v.history then
      v.(history := v.history[name := Prefix([v.settings[name]] + v.history[name], HistoryVersionLimit)])
    else
      v.(history := v.history[name := [v.settings[name]]])
  }

  /** `save_index_setting(s)`: the new table, or the conflict that stops the save. */
  function Save(v: StoreValue, s: IndexSetting): (r: Result<StoreValue, StoreError>)
    ensures r.Ok? <==>
      if s.name in v.settings then v.settings[s.name].version == Some(TargetVersion(s) - 1) else TargetVersion(s) == 1
    ensures r.Ok? ==> r.value.settings == v.settings[s.name := s.(version := Some(TargetVersion(s)))]
    ensures r.Ok? && s.name in v.settings ==> r.value.history == MoveToHistory(v, s.name).history
    ensures r.Ok? && s.name !in v.settings ==> r.value.history == v.history - {s.name}
    ensures r.Err? ==> r.error == if s.name in v.settings && v.settings[s.name].version.None?
      then VersionMissing(s.name) else OperationConflict(s.name, TargetVersion(s))
  {
    var target := TargetVersion(s);
    if s.name in v.settings then
      match v.settings[s.name].version
      case None => Err(VersionMissing(s.name))
      case Some(current) =>
        if current + 1 != target then Err(OperationConflict(s.name, target))
        else
          var w := MoveToHistory(v, s.name);
          Ok(w.(settings := w.settings[s.name := s.(version := Some(target))]))
    else if target != 1 then Err(OperationConflict(s.name, target))
    else Ok(StoreValue(v.settings[s.name := s.(version := Some(target))], v.history - {s.name}))
  }

  /** `delete_index_setting(name)`: a present setting moves to its history; an absent name changes nothing. */
  function Delete(v: StoreValue, name: string): (r: StoreValue)
    ensures name !in r.settings
    ensures r.settings == v.settings - {name}
    ensures name !in v.settings ==> r == v
    ensures name in v.settings ==> r.history == MoveToHistory(v, name).history
  {
    if name !in v.settings then v
    else
      var w := MoveToHistory(v, name);
      w.(settings := w.settings - {name})
  }

  /** Every history is within the limit. */
  predicate Bounded(v: StoreValue)
  {
    forall n :: n in v.history ==> |v.history[n]| <= HistoryVersionLimit
  }

  /** Saves and deletes keep every history within the limit. */
  lemma SaveDeleteBounded(v: StoreValue, s: IndexSetting, name: string)
    requires Bounded(v)
    ensures Save(v, s).Ok? ==> Bounded(Save(v, s).value)
    ensures Bounded(Delete(v, name))
  {
    if Save(v, s).Ok? && s.name in v.settings {
      var w := MoveToHistory(v, s.name);
      forall n | n in w.history
        ensures |w.history[n]| <= HistoryVersionLimit
      {
        if n != s.name {
          assert n in w.history - {s.name};
        }
      }
    }
    if name in v.settings {
      var w := MoveToHistory(v, name);
      forall n | n in w.history
        ensures |w.history[n]| <= HistoryVersionLimit
      {
        if n != name {
          assert n in w.history - {name};
        }
      }
    }
  }

  /**
   * Optimistic concurrency: of two saves derived from the same version of a setting,
   * only the first succeeds; the second conflicts with the version the first wrote.
   */
  lemma SecondSaveConflicts(v: StoreValue, s: IndexSetting, t: IndexSetting)
    requires Save(v, s).Ok?
    requires t.name == s.name && t.version == s.version
    ensures Save(Save(v, s).value, t) == Err(OperationConflict(s.name, TargetVersion(s)))
  {
  }

  /** A save derived from the stored setting succeeds and pushes the stored one onto the history. */
  lemma SaveFromStored(v: StoreValue, name: string, body: string)
    requires name in v.settings && v.settings[name].name == name && v.settings[name].version.Some?
    ensures var stored := v.settings[name];
      var r := Save(v, stored.(body := body));
      && r.Ok?
      && r.value.settings[name] == stored.(body := body, version := Some(stored.version.value + 1))
      && r.value.history[name][0] == stored
  {
  }

  /**
   * After a delete, the name can only be created again from scratch (target version 1),
   * and creating it again forgets the deleted setting's history.
   */
  lemma DeleteThenRecreate(v: StoreValue, name: string, s: IndexSetting)
    requires name in v.settings && s.name == name
    ensures var d := Delete(v, name);
      && d.history[name][0] == v.settings[name]
      && (Save(d, s).Ok? <==> TargetVersion(s) == 1)
      && (Save(d, s).Ok? ==> name !in Save(d, s).value.history)
  {
  }

  /** Saves one setting after another, stopping at the first failure with the table as it was then. */
  function SaveAll(v: StoreValue, ss: seq<IndexSetting>): (r: (StoreValue, Option<StoreError>))
    ensures r.1.None? ==> forall i :: 0 <= i < |ss| ==> ss[i].name in r.0.settings
  {
    if ss == [] then (v, None)
    else
      var (w, e) := SaveAll(v, ss[..|ss| - 1]);
      if e.Some? then (w, e)
      else match Save(w, ss[|ss| - 1])
        case Ok(u) => (assert forall i :: 0 <= i < |ss| - 1 ==> ss[..|ss| - 1][i] == ss[i]; (u, None))
        case Err(err) => (w, Some(err))
  }

  /** However far a run of saves gets, every history stays within the limit. */
  lemma {:induction false} SaveAllBounded(v: StoreValue, ss: seq<IndexSetting>)
    requires Bounded(v)
    ensures Bounded(SaveAll(v, ss).0)
  {
    if ss != [] {
      SaveAllBounded(v, ss[..|ss| - 1]);
      var w := SaveAll(v, ss[..|ss| - 1]).0;
      SaveDeleteBounded(w, ss[|ss| - 1], "");
    }
  }

  /** Once a run of saves has failed, later settings are not tried. */
  lemma {:induction false} SaveAllStops(v: StoreValue, ss: seq<IndexSetting>, n: nat)
    requires n <= |ss| && SaveAll(v, ss[..n]).1.Some?
    ensures SaveAll(v, ss) == SaveAll(v, ss[..n])
  {
    if n < |ss| {
      assert ss[..|ss| - 1][..n] == ss[..n];
      SaveAllStops(v, ss[..|ss| - 1], n);
    } else {
      assert ss[..n] == ss;
    }
  }

  /** `IndexSettingStore`: the two tables, updated in place. */
  class IndexSettingStore {
    var settings: map<string, IndexSetting>
    var history: map<string, seq<IndexSetting>>

    /** The table as a value. */
    function Value(): StoreValue
      reads this
    {
      StoreValue(settings, history)
    }

    /** The tables as parsed from their two JSON files (parsing is not modelled). */
    constructor (settings: map<string, IndexSetting>, history: map<string, seq<IndexSetting>>)
      ensures Value() == StoreValue(settings, history)
    {
      this.settings := settings;
      this.history := history;
    }

    /** `save_index_setting`: either the table changes as `Save` says, or it is unchanged and the conflict is returned. */
    method SaveIndexSetting(s: IndexSetting) returns (err: Option<StoreError>)
      modifies this
      ensures var r := Save(old(Value()), s);
        && (r.Ok? ==> err.None? && Value() == r.value)
        && (r.Err? ==> err == Some(r.error) && Value() == old(Value()))
    {
      var target := TargetVersion(s);
      var name := s.name;
      if name in settings {
        var currentVersion := settings[name].version;
        if currentVersion.None? {
          return Some(VersionMissing(name));
        }
        if currentVersion.value + 1 != target {
          return Some(OperationConflict(name, target));
        }
        MoveToHistoryOf(name);
      } else {
        if target != 1 {
          return Some(OperationConflict(name, target));
        }
        if name in history {
          history := history - {name};
        }
      }
      settings := settings[name := s.(version := Some(target))];
      err := None;
    }

    /** `delete_index_setting`. */
    method DeleteIndexSetting(name: string)
      modifies this
      ensures Value() == Delete(old(Value()), name)
    {
      if name in settings {
        MoveToHistoryOf(name);
        settings := settings - {name};
      }
    }

    /** `_move_to_history`. */
    method MoveToHistoryOf(name: string)
      requires name in settings
      modifies this
      ensures Value() == MoveToHistory(old(Value()), name)
    {
      if name in history {
        var h := [settings[name]] + history[name];
        history := history[name := Prefix(h, HistoryVersionLimit)];
      } else {
        history := history[name := [settings[name]]];
      }
    }
  }

  /** A semantic version, compared part by part. */
  datatype SemVer = SemVer(major: nat, minor: nat, patch: nat)

  /** `a >= b` between semantic versions. */
  predicate AtLeast(a: SemVer, b: SemVer)
  {
    a.major > b.major || (a.major == b.major && (a.minor > b.minor || (a.minor == b.minor && a.patch >= b.patch)))
  }

  /** The version an application package with no recorded version is taken to have. */
  const DefaultVersion := "2.0.0"

  /**
   * `_get_version`: the version in the config file if the file existed and holds a
   * config, else the version of the `marqo__config` document if one was passed, else
   * "2.0.0".
   */
  function AppVersion(hasMarqoConfig: bool, config: Option<string>, configDoc: Option<string>): (r: string)
    ensures r in {DefaultVersion} + (if hasMarqoConfig && config.Some? then {config.value} else {})
      + (if configDoc.Some? then {configDoc.value} else {})
    ensures hasMarqoConfig && config.Some? ==> r == config.value
    ensures configDoc.Some? && r != configDoc.value ==> hasMarqoConfig && config.Some?
  {
    if hasMarqoConfig && config.Some? then config.value
    else if configDoc.Some? then configDoc.value
    else DefaultVersion
  }

  /** Whether `bootstrap` goes ahead: the package is older than this Marqo, or a downgrade is allowed. */
  predicate Proceeds(app: SemVer, marqo: SemVer, allowDowngrade: bool)
  {
    !(AtLeast(app, marqo) && !allowDowngrade)
  }

  /** Bootstrapping is monotone: once a package is at the running version it is left alone, unless a downgrade is allowed. */
  lemma BootstrapOnce(app: SemVer, marqo: SemVer, allowDowngrade: bool)
    ensures Proceeds(app, marqo, allowDowngrade) <==> allowDowngrade || !AtLeast(app, marqo)
    ensures !allowDowngrade ==> !Proceeds(marqo, marqo, false)
  {
  }

  /**
   * The part of `VespaApplicationPackage` that `bootstrap` reads and changes: whether
   * the config file existed when the package was loaded, the version in the config
   * store, and the index-settings table.
   */
  class ApplicationPackage {
    const hasMarqoConfig: bool
    var configVersion: Option<string>
    const store: IndexSettingStore

    constructor (hasMarqoConfig: bool, configVersion: Option<string>, store: IndexSettingStore)
      ensures this.hasMarqoConfig == hasMarqoConfig && this.configVersion == configVersion && this.store == store
    {
      this.hasMarqoConfig := hasMarqoConfig;
      this.configVersion := configVersion;
      this.store := store;
    }

    /**
     * `bootstrap(marqoVersion, allowDowngrade, configDoc, existing)`, with version
     * strings read by `parse`: returns false and changes nothing when the package is
     * already at or beyond this Marqo and a downgrade is not allowed; otherwise saves
     * the existing index settings (only when the package has no config file), stops at
     * the first conflict, and records the new version.
     */
    method Bootstrap(marqoVersion: string, allowDowngrade: bool, configDoc: Option<string>,
                     existing: seq<IndexSetting>, parse: string -> SemVer) returns (r: Result<bool, StoreError>)
      modifies this, store
      ensures var app := parse(AppVersion(hasMarqoConfig, old(configVersion), configDoc));
        !Proceeds(app, parse(marqoVersion), allowDowngrade) ==>
          r == Ok(false) && configVersion == old(configVersion) && store.Value() == old(store.Value())
      ensures var app := parse(AppVersion(hasMarqoConfig, old(configVersion), configDoc));
        Proceeds(app, parse(marqoVersion), allowDowngrade) ==>
          var (v, e) := SaveAll(old(store.Value()), if hasMarqoConfig then [] else existing);
          && store.Value() == v
          && (e.Some? ==> r == Err(e.value) && configVersion == old(configVersion))
          && (e.None? ==> r == Ok(true) && configVersion == Some(marqoVersion))
    {
      var marqoSemVersion := parse(marqoVersion);
      var appSemVersion := parse(AppVersion(hasMarqoConfig, configVersion, configDoc));
      if AtLeast(appSemVersion, marqoSemVersion) && !allowDowngrade {
        return Ok(false);
      }
      if !hasMarqoConfig && |existing| > 0 {
        var err := SaveEach(existing);
        if err.Some? {
          return Err(err.value);
        }
      }
      configVersion := Some(marqoVersion);
      r := Ok(true);
    }

    /** The loop of `bootstrap` that saves each existing index setting in turn. */
    method SaveEach(existing: seq<IndexSetting>) returns (err: Option<StoreError>)
      modifies store
      ensures (store.Value(), err) == SaveAll(old(store.Value()), existing)
    {
      var i := 0;
      while i < |existing|
        invariant 0 <= i <= |existing|
        invariant SaveAll(old(store.Value()), existing[..i]) == (store.Value(), None)
      {
        assert existing[..i + 1][..i] == existing[..i];
        err := store.SaveIndexSetting(existing[i]);
        if err.Some? {
          Seqs.TakeSnoc(existing, i);
          SaveAllStops(old(store.Value()), existing, i + 1);
          return;
        }
        i := i + 1;
      }
      assert existing[..i] == existing;
      err := None;
    }
  }
}
