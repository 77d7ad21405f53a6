/** `embedding_config`: the module-level configuration dict, its three
    presets, and the functions that read and change it. Python dicts are
    objects here, so that sharing one dict between two places is visible. */
module Config {
  import opened Common
  import opened Providers

  /** The settings dict of one provider (`{"dimension": 512}`). */
  class SettingsDict {
    var entries: map<string, Setting>

    constructor (entries: map<string, Setting>)
      ensures this.entries == entries
    {
      this.entries := entries;
    }

    /** `dict.update`: the given keys take the given values, the others keep
        theirs. */
    method Update(other: map<string, Setting>)
      modifies this
      ensures entries.Keys == old(entries.Keys) + other.Keys
      ensures forall k :: k in other ==> entries[k] == other[k]
      ensures forall k :: k in old(entries) && k !in other ==> entries[k] == old(entries[k])
    {
      entries := entries + other;
    }
  }

  /** The dict under `"providers"`: provider name to its settings dict.
      No operation adds or removes a key of it, only replaces it whole or
      updates one of its settings dicts. */
  class ProvidersDict {
    const entries: map<string, SettingsDict>

    constructor (entries: map<string, SettingsDict>)
      ensures this.entries == entries
    {
      this.entries := entries;
    }
  }

  /** A configuration dict with its `"provider"` and `"providers"` keys. */
  class ConfigDict {
    var provider: string
    var providers: ProvidersDict

    constructor (provider: string, providers: ProvidersDict)
      ensures this.provider == provider && this.providers == providers
    {
      this.provider := provider;
      this.providers := providers;
    }
  }

  type ProviderSettings = map<string, map<string, Setting>>

  /** What a configuration dict holds, seen as a value. */
  datatype ConfigValue = ConfigValue(provider: string, providers: ProviderSettings)

  /** The settings a providers dict holds, seen as a value. */
  function Snapshot(d: ProvidersDict): ProviderSettings
    reads d.entries.Values
  {
    map name | name in d.entries :: d.entries[name].entries
  }

  ghost function ValueOf(c: ConfigDict): ConfigValue
    reads c, c.providers.entries.Values
  {
    ConfigValue(c.provider, Snapshot(c.providers))
  }

  /** No two provider names share one settings dict. */
  ghost predicate Injective(d: ProvidersDict) {
    forall a, b :: a in d.entries && b in d.entries && a != b ==> d.entries[a] != d.entries[b]
  }

  const DefaultConfig: ConfigValue := ConfigValue("dummy", map[
    "dummy" := map["dimension" := IntValue(512)],
    "openai" := map["model" := TextValue("text-embedding-3-small")],
    "huggingface" := map["model_name" := TextValue("all-MiniLM-L6-v2")]])

  const DevelopmentPreset: ConfigValue :=
    ConfigValue("dummy", map["dummy" := map["dimension" := IntValue(384)]])
  const OpenAIPreset: ConfigValue :=
    ConfigValue("openai", map["openai" := map["model" := TextValue("text-embedding-3-small")]])
  const LocalPreset: ConfigValue :=
    ConfigValue("huggingface", map["huggingface" := map["model_name" := TextValue("all-MiniLM-L6-v2")]])

  const PresetNames: set<string> := {"development", "openai", "local"}

  /** The `configs` table of `use_config`, as the presets are written. */
  function PresetValue(name: string): (v: Option<ConfigValue>)
    ensures v.Some? <==> name in PresetNames
    ensures v.Some? ==> v.value.providers.Keys == {v.value.provider}
    ensures v.Some? ==> v.value.provider in KnownProviders
  {
    if name == "development" then Some(DevelopmentPreset)
    else if name == "openai" then Some(OpenAIPreset)
    else if name == "local" then Some(LocalPreset)
    else None
  }

  /** `set_embedding_provider(p, **kwargs)` on a configuration value: the new
      value, and whether `KeyError` was raised (after `provider` was set). */
  function SetProvider(c: ConfigValue, p: string, kwargs: Kwargs): (r: (ConfigValue, bool))
    ensures r.0.provider == p
    ensures r.1 <==> kwargs != map[] && p !in c.providers
    ensures r.0.providers.Keys == c.providers.Keys
    ensures forall q :: q in c.providers && q != p ==> r.0.providers[q] == c.providers[q]
    ensures p in c.providers ==>
              && r.0.providers[p].Keys == c.providers[p].Keys + kwargs.Keys
              && (forall k :: k in kwargs ==> r.0.providers[p][k] == kwargs[k])
              && (forall k :: k in c.providers[p] && k !in kwargs ==> r.0.providers[p][k] == c.providers[p][k])
  {
    if kwargs == map[] then (c.(provider := p), false)
    else if p in c.providers then
      (ConfigValue(p, c.providers[p := c.providers[p] + kwargs]), false)
    else (c.(provider := p), true)
  }

  /** `use_config(name)` as the presets are written: the preset replaces both
      keys, an unknown name changes nothing. */
  function Switch(c: ConfigValue, name: string): (r: (ConfigValue, bool))
    ensures r.1 <==> name in PresetNames
    ensures r.1 ==> Some(r.0) == PresetValue(name)
    ensures !r.1 ==> r.0 == c
  {
    match PresetValue(name)
    case Some(v) => (v, true)
    case None => (c, false)
  }

  /** Setting the same provider with the same arguments twice is the same as
      doing it once. */
  lemma SetProviderIdempotent(c: ConfigValue, p: string, kwargs: Kwargs)
    ensures var once := SetProvider(c, p, kwargs);
            SetProvider(once.0, p, kwargs) == once
  {
    var once := SetProvider(c, p, kwargs);
    if kwargs != map[] && p in c.providers {
      var merged := c.providers[p] + kwargs;
      assert merged + kwargs == merged;
      assert once.0.providers[p := merged + kwargs] == once.0.providers;
    }
  }

  /** Applying a preset twice is applying it once, and a later preset
      overrides an earlier one whatever the earlier one was. */
  lemma SwitchLastWins(c: ConfigValue, first: string, second: string)
    requires second in PresetNames
    ensures Switch(Switch(c, first).0, second) == Switch(c, second)
    ensures Switch(Switch(c, second).0, second) == Switch(c, second)
  {
  }

  /** After a preset, only its own provider has settings: giving settings to
      any other provider raises `KeyError`, though `provider` still changes. */
  lemma PresetKeepsOneProvider(c: ConfigValue, name: string, p: string, kwargs: Kwargs)
    requires name in PresetNames
    requires kwargs != map[]
    ensures var preset := Switch(c, name).0;
            var r := SetProvider(preset, p, kwargs);
            (r.1 <==> p != preset.provider) && r.0.provider == p
  {
  }

  /** The default settings of each provider build that provider: a dummy of
      dimension 512, an OpenAI client for the small model when a key is in the
      environment, and the MiniLM model when it can be loaded. */
  lemma DefaultSettingsBuildProviders(env: Environment)
    ensures GetEmbeddingProvider("dummy", DefaultConfig.providers["dummy"], env)
              == Success(Dummy(DefaultDummyDimension))
    ensures (GetEmbeddingProvider("openai", DefaultConfig.providers["openai"], env).Success?
             <==> env.openAIKey.Some? && env.openAIKey.value != [])
    ensures GetEmbeddingProvider("openai", DefaultConfig.providers["openai"], env).Success? ==>
              GetDimension(GetEmbeddingProvider("openai", DefaultConfig.providers["openai"], env).value) == 1536
    ensures (GetEmbeddingProvider("huggingface", DefaultConfig.providers["huggingface"], env).Success?
             <==> DefaultHuggingFaceModel in env.loadableModels)
  {
    var openai := DefaultConfig.providers["openai"];
    assert WellTypedOpenAIArguments(openai) && !GivesKey(openai);
  }

  /** The module's global state: `EMBEDDING_CONFIG`, and the settings dicts
      written inside `DEVELOPMENT_CONFIG`, `OPENAI_CONFIG` and `LOCAL_CONFIG`
      together with the `providers` dicts holding them. The presets'
      `provider` strings are never changed and are those of `PresetValue`. */
  class EmbeddingConfig {
    const config: ConfigDict
    const developmentDummy: SettingsDict
    const openAIModel: SettingsDict
    const localModel: SettingsDict
    const developmentProviders: ProvidersDict
    const openAIProviders: ProvidersDict
    const localProviders: ProvidersDict

    ghost predicate Valid()
      reads config
    {
      && Injective(config.providers)
      && developmentProviders.entries == map["dummy" := developmentDummy]
      && openAIProviders.entries == map["openai" := openAIModel]
      && localProviders.entries == map["huggingface" := localModel]
    }

    /** The live configuration shares no settings dict with a preset. */
    ghost predicate Isolated()
      reads config
    {
      forall name :: name in config.providers.entries ==>
        config.providers.entries[name] !in {developmentDummy, openAIModel, localModel}
    }

    /** The presets still hold what the source writes for them. */
    ghost predicate Pristine()
      reads developmentDummy, openAIModel, localModel
    {
      && developmentDummy.entries == DevelopmentPreset.providers["dummy"]
      && openAIModel.entries == OpenAIPreset.providers["openai"]
      && localModel.entries == LocalPreset.providers["huggingface"]
    }

    /** The `providers` dict of the preset `name`. */
    function PresetProviders(name: string): ProvidersDict
      requires name in PresetNames
    {
      if name == "development" then developmentProviders
      else if name == "openai" then openAIProviders
      else localProviders
    }

    /** Untouched presets hold the values `PresetValue` gives. */
    lemma PristineSnapshots(name: string)
      requires Valid() && Pristine() && name in PresetNames
      ensures Snapshot(PresetProviders(name)) == PresetValue(name).value.providers
    {
      var d := PresetProviders(name);
      assert Snapshot(d).Keys == PresetValue(name).value.providers.Keys;
    }

    /** The state at import time. */
    constructor ()
      ensures Valid() && Isolated() && Pristine()
      ensures ValueOf(config) == DefaultConfig
      ensures fresh(config) && fresh(developmentDummy) && fresh(openAIModel) && fresh(localModel)
      ensures forall name :: name in config.providers.entries ==> fresh(config.providers.entries[name])
    {
      var dummy, model, modelName, development, openAI, local := NewPresetDicts();
      developmentDummy, openAIModel, localModel := dummy, model, modelName;
      developmentProviders, openAIProviders, localProviders := development, openAI, local;
      var live := NewConfigDict(DefaultConfig);
      config := live;
    }

    /** `get_embedding_config`: the live dict itself, not a copy, so later
        changes show through it. */
    method GetEmbeddingConfig() returns (c: ConfigDict)
      ensures c == config
    {
      c := config;
    }

    /** `EMBEDDING_CONFIG["providers"][EMBEDDING_CONFIG["provider"]].get(key)`. */
    function ActiveSetting(key: string): (s: Option<Setting>)
      reads config, config.providers.entries.Values
      ensures var v := ValueOf(config);
              s.Some? <==> v.provider in v.providers && key in v.providers[v.provider]
      ensures s.Some? ==> s.value == ValueOf(config).providers[config.provider][key]
    {
      if config.provider in config.providers.entries
         && key in config.providers.entries[config.provider].entries
      then Some(config.providers.entries[config.provider].entries[key])
      else None
    }

    /** `set_embedding_provider(p, **kwargs)`: `provider` is set first, then
        the settings dict of `p` is updated in place when there are kwargs;
        `raised` is the `KeyError` of a missing `p`. Whatever holds that same
        settings dict sees the update too. */
    method SetEmbeddingProvider(p: string, kwargs: Kwargs) returns (raised: bool)
      requires Valid()
      modifies config, if p in config.providers.entries then {config.providers.entries[p]} else {}
      ensures Valid()
      ensures (ValueOf(config), raised) == SetProvider(old(ValueOf(config)), p, kwargs)
      ensures config.providers == old(config.providers)
      ensures p in config.providers.entries ==>
                && config.providers.entries[p].entries.Keys == old(config.providers.entries[p].entries.Keys) + kwargs.Keys
                && forall k :: k in kwargs ==> config.providers.entries[p].entries[k] == kwargs[k]
      ensures old(Isolated()) ==> Isolated() && unchanged(developmentDummy, openAIModel, localModel)
    {
      ghost var before := ValueOf(config);
      config.provider := p;
      raised := false;
      if kwargs != map[] {
        if p in config.providers.entries {
          var settings := config.providers.entries[p];
          settings.Update(kwargs);
          assert settings.entries == before.providers[p] + kwargs;
          assert ValueOf(config).providers == before.providers[p := before.providers[p] + kwargs];
        } else {
          raised := true;
        }
      }
      assert kwargs == map[] || raised ==> ValueOf(config).providers == before.providers;
    }

    /** `use_config(name)` as written: the live dict takes the preset's
        `provider` and the preset's very `providers` dict, so the two share
        its settings dicts from then on. An unknown name changes nothing. */
    method UseConfig(name: string) returns (known: bool)
      requires Valid()
      modifies config
      ensures Valid()
      ensures known <==> name in PresetNames
      ensures known ==> config.providers == PresetProviders(name)
      ensures known ==>
                ValueOf(config) == ConfigValue(PresetValue(name).value.provider, Snapshot(PresetProviders(name)))
      ensures !known ==> ValueOf(config) == old(ValueOf(config)) && config.providers == old(config.providers)
      ensures old(Pristine()) ==> (ValueOf(config), known) == Switch(old(ValueOf(config)), name)
    {
      known := name in PresetNames;
      if known {
        if Pristine() {
          PristineSnapshots(name);
        }
        config.provider := PresetValue(name).value.provider;
        config.providers := PresetProviders(name);
      }
    }

    /** `use_config(name)` with the preset deep-copied in, as "switch to a
        predefined configuration" intends: the live dict gets settings dicts
        of its own, so the presets keep their values. */
    method UsePreset(name: string) returns (known: bool)
      requires Valid()
      modifies config
      ensures Valid()
      ensures known <==> name in PresetNames
      ensures known ==>
                ValueOf(config) == ConfigValue(PresetValue(name).value.provider, old(Snapshot(PresetProviders(name))))
      ensures known ==> Isolated()
      ensures known ==> forall name :: name in config.providers.entries ==> fresh(config.providers.entries[name])
      ensures !known ==> ValueOf(config) == old(ValueOf(config)) && Isolated() == old(Isolated())
      ensures old(Pristine()) ==> (ValueOf(config), known) == Switch(old(ValueOf(config)), name)
    {
      known := name in PresetNames;
      if known {
        if Pristine() {
          PristineSnapshots(name);
        }
        var copy := NewProvidersDict(Snapshot(PresetProviders(name)));
        ghost var settings := Snapshot(copy);
        assert settings == old(Snapshot(PresetProviders(name)));
        config.provider := PresetValue(name).value.provider;
        config.providers := copy;
        assert Snapshot(config.providers) == settings;
      }
    }
  }

  /** The dicts written inside `DEVELOPMENT_CONFIG`, `OPENAI_CONFIG` and
      `LOCAL_CONFIG`: each preset's settings dict and the `providers` dict
      holding it. */
  method NewPresetDicts()
    returns (dummy: SettingsDict, model: SettingsDict, modelName: SettingsDict,
             development: ProvidersDict, openAI: ProvidersDict, local: ProvidersDict)
    ensures fresh(dummy) && fresh(model) && fresh(modelName)
    ensures dummy.entries == DevelopmentPreset.providers["dummy"]
    ensures model.entries == OpenAIPreset.providers["openai"]
    ensures modelName.entries == LocalPreset.providers["huggingface"]
    ensures development.entries == map["dummy" := dummy]
    ensures openAI.entries == map["openai" := model]
    ensures local.entries == map["huggingface" := modelName]
  {
    dummy := new SettingsDict(DevelopmentPreset.providers["dummy"]);
    model := new SettingsDict(OpenAIPreset.providers["openai"]);
    modelName := new SettingsDict(LocalPreset.providers["huggingface"]);
    development := new ProvidersDict(map["dummy" := dummy]);
    openAI := new ProvidersDict(map["openai" := model]);
    local := new ProvidersDict(map["huggingface" := modelName]);
  }

  /** A providers dict with one entry holds that entry's settings. */
  lemma SnapshotOfSingle(d: ProvidersDict, name: string, settings: SettingsDict)
    requires d.entries == map[name := settings]
    ensures Snapshot(d) == map[name := settings.entries]
  {
    assert Snapshot(d).Keys == {name};
  }

  /** Fresh dicts holding `settings`. */
  method NewProvidersDict(settings: ProviderSettings) returns (d: ProvidersDict)
    ensures fresh(d) && Injective(d)
    ensures forall name :: name in d.entries ==> fresh(d.entries[name])
    ensures Snapshot(d) == settings
  {
    var entries: map<string, SettingsDict> := map[];
    var remaining := settings.Keys;
    while remaining != {}
      invariant remaining <= settings.Keys
      invariant entries.Keys == settings.Keys - remaining
      invariant forall name :: name in entries ==> fresh(entries[name])
      invariant forall a, b :: a in entries && b in entries && a != b ==> entries[a] != entries[b]
      invariant forall name :: name in entries ==> entries[name].entries == settings[name]
      decreases remaining
    {
      var name :| name in remaining;
      var entry := new SettingsDict(settings[name]);
      entries := entries[name := entry];
      remaining := remaining - {name};
    }
    d := new ProvidersDict(entries);
  }

  /** A fresh configuration dict holding `value`. */
  method NewConfigDict(value: ConfigValue) returns (c: ConfigDict)
    ensures fresh(c) && Injective(c.providers)
    ensures forall name :: name in c.providers.entries ==> fresh(c.providers.entries[name])
    ensures ValueOf(c) == value
  {
    var providers := NewProvidersDict(value.providers);
    c := new ConfigDict(value.provider, providers);
  }

  /** As written: `use_config("development")` followed by
      `set_embedding_provider("dummy", dimension=128)` edits the settings dict
      of the development preset itself. */
  method EditDevelopmentInPlace() returns (store: EmbeddingConfig)
    ensures fresh(store) && fresh(store.config) && store.Valid()
    ensures "dimension" in store.developmentDummy.entries
    ensures store.developmentDummy.entries["dimension"] == IntValue(128)
  {
    store := new EmbeddingConfig();
    var known := store.UseConfig("development");
    assert store.config.providers.entries["dummy"] == store.developmentDummy;
    var kwargs := map["dimension" := IntValue(128)];
    assert kwargs["dimension"] == IntValue(128);
    var raised := store.SetEmbeddingProvider("dummy", kwargs);
  }

  /** As written: after that edit, switching to another preset and back to
      the development one brings the edited dimension back instead of the
      preset's 384. */
  method EditedPresetComesBack() returns (dimension: Option<Setting>)
    ensures dimension == Some(IntValue(128))
  {
    var store := EditDevelopmentInPlace();
    var known := store.UseConfig("openai");
    known := store.UseConfig("development");
    SnapshotOfSingle(store.developmentProviders, "dummy", store.developmentDummy);
    dimension := store.ActiveSetting("dimension");
  }

  /** Corrected: the same edit after a copying switch leaves the presets as
      written. */
  method EditDevelopmentCopy() returns (store: EmbeddingConfig)
    ensures fresh(store) && fresh(store.config) && store.Valid() && store.Pristine()
  {
    store := new EmbeddingConfig();
    var known := store.UsePreset("development");
    assert store.Isolated();
    var raised := store.SetEmbeddingProvider("dummy", map["dimension" := IntValue(128)]);
  }

  /** Corrected: switching to another preset and back restores the
      development preset's dimension 384. */
  method EditedPresetIsDiscarded() returns (dimension: Option<Setting>)
    ensures dimension == Some(IntValue(384))
  {
    var store := EditDevelopmentCopy();
    var known := store.UsePreset("openai");
    known := store.UsePreset("development");
    dimension := store.ActiveSetting("dimension");
  }
}
