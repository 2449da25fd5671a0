/**
  The persisted settings store of the backend (`SettingsManager`): a JSON file
  holding a dictionary, a whitelist of six keys with default values, filling of
  missing defaults at start-up, merge-on-save, rejection of unknown keys by
  `update_setting`, and reset to defaults.

  The file is the state. A missing file and a file that is not valid JSON both
  read as a copy of the defaults. Writing either always succeeds or always
  fails at opening the file (`writable`); a failed open leaves the file as it
  was and makes the saving method answer false.
*/
module Settings {
  import opened Common

  /** The whitelisted keys, in the order of the default dictionary. */
  const DefaultKeys: seq<string> :=
    ["ollama_base_url", "embedding_model", "llm_model", "chunk_size", "chunk_overlap", "top_k_chunks"]

  const Defaults: Dict := map[
    "ollama_base_url" := Str("http://localhost:11434"),
    "embedding_model" := Str("nomic-embed-text"),
    "llm_model" := Str("phi4:14b-fp16"),
    "chunk_size" := Int(1500),
    "chunk_overlap" := Int(150),
    "top_k_chunks" := Int(10)
  ]

  lemma DefaultKeysAreTheWhitelist()
    ensures forall k :: k in Defaults <==> k in DefaultKeys
    ensures |DefaultKeys| == 6
  {
  }

  /** The settings file as the store finds it on disk. */
  datatype SettingsFile = Missing | Malformed | Stored(settings: Dict)

  /** What `load_settings` answers for a file: its dictionary, or a copy of the defaults. */
  function Loaded(f: SettingsFile): (r: Dict)
    ensures f.Stored? ==> r == f.settings
    ensures !f.Stored? ==> r == Defaults
  {
    match f
    case Stored(s) => s
    case _ => Defaults
  }

  /** The part of an input dictionary that `save_settings` keeps: the whitelisted keys only. */
  function Whitelisted(s: Dict): (r: Dict)
    ensures r.Keys == s.Keys * Defaults.Keys
    ensures forall k :: k in r ==> r[k] == s[k]
  {
    map k | k in s && k in Defaults :: s[k]
  }

  /** The file after a successful `save_settings(s)`: the stored dictionary updated by the whitelisted input. */
  function AfterSave(f: SettingsFile, s: Dict): SettingsFile
  {
    Stored(Loaded(f) + Whitelisted(s))
  }

  /** The file after `_initialize_settings`, given whether writing succeeds. */
  function AfterInit(f: SettingsFile, writable: bool): SettingsFile
  {
    if !writable then f
    else if f.Missing? then AfterSave(f, Defaults)
    else if Defaults.Keys <= Loaded(f).Keys then f
    else AfterSave(f, Defaults + Loaded(f))
  }

  /** Every whitelisted key can be read back. */
  ghost predicate Complete(f: SettingsFile)
  {
    Defaults.Keys <= Loaded(f).Keys
  }

  /** Saving never stores an input key outside the whitelist. */
  lemma SaveDiscardsUnknownKeys(f: SettingsFile, s: Dict, k: string)
    requires k in s && k !in Defaults
    ensures k in Loaded(AfterSave(f, s)) <==> k in Loaded(f)
    ensures k in Loaded(f) ==> Loaded(AfterSave(f, s))[k] == Loaded(f)[k]
  {
  }

  /** Saving merges: whitelisted input keys overwrite, every other stored key keeps its value. */
  lemma SaveMerges(f: SettingsFile, s: Dict)
    ensures Loaded(AfterSave(f, s)).Keys == Loaded(f).Keys + (s.Keys * Defaults.Keys)
    ensures forall k :: k in s && k in Defaults ==> Loaded(AfterSave(f, s))[k] == s[k]
    ensures forall k :: k in Loaded(f) && !(k in s && k in Defaults) ==>
              Loaded(AfterSave(f, s))[k] == Loaded(f)[k]
  {
  }

  /** Saving the same dictionary twice stores the same dictionary as saving it once. */
  lemma SaveIdempotent(f: SettingsFile, s: Dict)
    ensures AfterSave(AfterSave(f, s), s) == AfterSave(f, s)
  {
    var once := Loaded(f) + Whitelisted(s);
    assert once + Whitelisted(s) == once;
  }

  /** Saving keeps every whitelisted key readable once it is. */
  lemma SavePreservesComplete(f: SettingsFile, s: Dict)
    requires Complete(f)
    ensures Complete(AfterSave(f, s))
  {
  }

  /**
    Start-up writes the defaults when there is no file, and otherwise adds every
    missing default key while leaving the values already stored unchanged.
  */
  lemma InitFillsDefaults(f: SettingsFile)
    ensures f.Missing? ==> AfterInit(f, true) == Stored(Defaults)
    ensures f.Stored? ==> AfterInit(f, true) == Stored(Defaults + f.settings)
    ensures f.Malformed? ==> AfterInit(f, true) == Malformed
    ensures Complete(AfterInit(f, true))
  {
    if f.Missing? {
      assert Defaults + Whitelisted(Defaults) == Defaults;
    } else if f.Stored? {
      var m := f.settings;
      if Defaults.Keys <= m.Keys {
        assert Defaults + m == m;
      } else {
        assert m + Whitelisted(Defaults + m) == Defaults + m;
      }
    }
  }

  /** Storing one whitelisted key through load, assign and save changes that key and nothing else. */
  lemma UpdateOneKey(f: SettingsFile, key: string, value: Value)
    requires key in Defaults
    ensures AfterSave(f, Loaded(f)[key := value]) == Stored(Loaded(f)[key := value])
  {
    var l := Loaded(f);
    assert l + Whitelisted(l[key := value]) == l[key := value];
  }

  /** Reset restores the six defaults; keys outside the whitelist already stored survive it. */
  lemma ResetKeepsUnknownKeys(f: SettingsFile)
    ensures forall k :: k in Defaults ==> Loaded(AfterSave(f, Defaults))[k] == Defaults[k]
    ensures forall k :: k in Loaded(f) && k !in Defaults ==> Loaded(AfterSave(f, Defaults))[k] == Loaded(f)[k]
    ensures Loaded(AfterSave(f, Defaults)).Keys == Loaded(f).Keys + Defaults.Keys
  {
  }

  /** The default filling that `_initialize_settings` performs on the keys `keys` of `defaults`. */
  function FillFrom(defaults: Dict, current: Dict, keys: seq<string>): (r: Dict)
  {
    (map k | k in keys && k in defaults :: defaults[k]) + current
  }

  /** Some key of `keys` is absent from `current`. */
  predicate MissingAmong(current: Dict, keys: seq<string>)
  {
    exists j :: 0 <= j < |keys| && keys[j] !in current
  }

  /** One step of the filling loop: a key already present is left alone, a missing one gets its default. */
  lemma FillStep(defaults: Dict, current: Dict, keys: seq<string>, key: string)
    requires key in defaults
    ensures FillFrom(defaults, current, keys + [key]) ==
      if key in FillFrom(defaults, current, keys) then FillFrom(defaults, current, keys)
      else FillFrom(defaults, current, keys)[key := defaults[key]]
    ensures key in FillFrom(defaults, current, keys) <==> key in current || key in keys
    ensures MissingAmong(current, keys + [key]) <==> MissingAmong(current, keys) || key !in current
  {
    var before := FillFrom(defaults, current, keys);
    var after := FillFrom(defaults, current, keys + [key]);
    if key in before {
      assert after == before;
    } else {
      assert after == before[key := defaults[key]];
    }
    if MissingAmong(current, keys) {
      var j :| 0 <= j < |keys| && keys[j] !in current;
      assert (keys + [key])[j] == keys[j];
    }
    if key !in current {
      assert (keys + [key])[|keys|] == key;
    }
  }

  /** After all six keys, the filled dictionary is the defaults overridden by what was stored, and
      something was filled exactly when a default key was missing. */
  lemma FillAll(current: Dict)
    ensures FillFrom(Defaults, current, DefaultKeys) == Defaults + current
    ensures MissingAmong(current, DefaultKeys) <==> !(Defaults.Keys <= current.Keys)
  {
    DefaultKeysAreTheWhitelist();
    assert (map k | k in DefaultKeys && k in Defaults :: Defaults[k]) == Defaults;
    if !(Defaults.Keys <= current.Keys) {
      var k :| k in Defaults && k !in current;
      var j :| 0 <= j < |DefaultKeys| && DefaultKeys[j] == k;
    }
  }

  /**
    The loop of `_initialize_settings` over the items of a default dictionary:
    give each key of `keys` missing from `current` its default value, noting
    whether any was missing.
  */
  method FillMissing(defaults: Dict, keys: seq<string>, current: Dict) returns (filled: Dict, updated: bool)
    requires forall k :: k in keys ==> k in defaults
    ensures filled == FillFrom(defaults, current, keys)
    ensures updated <==> MissingAmong(current, keys)
  {
    filled := current;
    updated := false;
    var i := 0;
    while i < |keys|
      invariant 0 <= i <= |keys|
      invariant filled == FillFrom(defaults, current, keys[..i])
      invariant updated <==> MissingAmong(current, keys[..i])
    {
      var key := keys[i];
      FillStep(defaults, current, keys[..i], key);
      assert keys[..i + 1] == keys[..i] + [key];
      if key !in filled {
        filled := filled[key := defaults[key]];
        updated := true;
      }
      i := i + 1;
    }
    assert keys[..i] == keys;
  }

  /** The filling loop run over the six default settings. */
  method FillMissingDefaults(current: Dict) returns (filled: Dict, updated: bool)
    ensures filled == Defaults + current
    ensures updated <==> !(Defaults.Keys <= current.Keys)
  {
    DefaultKeysAreTheWhitelist();
    filled, updated := FillMissing(Defaults, DefaultKeys, current);
    FillAll(current);
  }

  class SettingsManager {
    /** The settings file as it stands on disk. */
    var file: SettingsFile
    /** Whether writing the settings file succeeds. */
    const writable: bool

    /** Creates the store over an existing (or missing) file and runs `_initialize_settings`. */
    constructor (initial: SettingsFile, canWrite: bool)
      ensures writable == canWrite
      ensures file == AfterInit(initial, canWrite)
    {
      file := initial;
      writable := canWrite;
      new;
      InitializeSettings();
    }

    /** `_initialize_settings` */
    method InitializeSettings()
      modifies this
      ensures file == AfterInit(old(file), writable)
    {
      if file.Missing? {
        var _ := SaveSettings(Defaults);
      } else {
        var current := LoadSettings();
        var updated;
        current, updated := FillMissingDefaults(current);
        if updated {
          var _ := SaveSettings(current);
        }
      }
    }

    /** `load_settings` */
    method LoadSettings() returns (s: Dict)
      ensures file.Stored? ==> s == file.settings
      ensures !file.Stored? ==> s == Defaults
    {
      match file
      case Stored(settings) => s := settings;
      case _ => s := Defaults;
    }

    /** `save_settings`: keep the whitelisted keys of the input, merge them over the stored dictionary, write. */
    method SaveSettings(settings: Dict) returns (ok: bool)
      modifies this
      ensures ok == writable
      ensures file == if writable then AfterSave(old(file), settings) else old(file)
    {
      var filtered := map k | k in settings && k in Defaults :: settings[k];
      var current := LoadSettings();
      current := current + filtered;
      if !writable {
        return false;
      }
      file := Stored(current);
      return true;
    }

    /** `get_setting`: the stored value, or the caller's default when the key is absent. */
    method GetSetting(key: string, default: Option<Value>) returns (v: Option<Value>)
      ensures key in Loaded(file) ==> v == Some(Loaded(file)[key])
      ensures key !in Loaded(file) ==> v == default
    {
      var settings := LoadSettings();
      v := if key in settings then Some(settings[key]) else default;
    }

    /** `update_setting`: unknown keys are refused; a known key is assigned and the dictionary saved. */
    method UpdateSetting(key: string, value: Value) returns (ok: bool)
      modifies this
      ensures key !in Defaults ==> !ok && file == old(file)
      ensures key in Defaults ==> ok == writable
      ensures key in Defaults && writable ==> file == Stored(Loaded(old(file))[key := value])
      ensures !writable ==> file == old(file)
    {
      if key !in Defaults {
        return false;
      }
      var settings := LoadSettings();
      settings := settings[key := value];
      UpdateOneKey(file, key, value);
      ok := SaveSettings(settings);
    }

    /** `reset_to_defaults` */
    method ResetToDefaults() returns (ok: bool)
      modifies this
      ensures ok == writable
      ensures file == if writable then AfterSave(old(file), Defaults) else old(file)
    {
      ok := SaveSettings(Defaults);
    }

    /** `get_all_settings` */
    method GetAllSettings() returns (s: Dict)
      ensures s == Loaded(file)
    {
      s := LoadSettings();
    }
  }
}
