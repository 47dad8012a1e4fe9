/**
 * The provider settings of src/App.jsx: the component's initial values, the
 * per-field fallbacks `loadSettings` applies to the loaded configuration, and
 * the document `saveSettings` writes.
 */
module Settings {
  import opened Wrappers
  import opened Records
  import Store

  /** The settings as the component holds them: every field present. */
  datatype ApiSettings = ApiSettings(
    apiProvider: string,
    apiKeys: map<string, string>,
    models: map<string, string>,
    useCustomModels: map<string, bool>)

  /** The values the component starts with, before any configuration is loaded. */
  function InitialSettings(): ApiSettings {
    ApiSettings(
      "zhipu",
      map["zhipu" := "", "siliconflow" := ""],
      map["zhipu" := "", "siliconflow" := ""],
      map["zhipu" := false, "siliconflow" := false])
  }

  /**
   * loadSettings: each field of the loaded document, or its fallback. The
   * provider falls back when missing or empty (`||` on a string); the three
   * maps only when missing, since an object is never falsy. `builtinKey` is
   * the key the component ships for the first provider.
   */
  function FromConfig(config: Config, builtinKey: string): (s: ApiSettings)
    ensures s.apiProvider != ""
    ensures config.apiProvider.Some? && config.apiProvider.value != "" ==> s.apiProvider == config.apiProvider.value
    ensures config.apiKeys.Some? ==> s.apiKeys == config.apiKeys.value
    ensures config.models.Some? ==> s.models == config.models.value
    ensures config.useCustomModels.Some? ==> s.useCustomModels == config.useCustomModels.value
    ensures config.apiProvider.None? || config.apiProvider.value == "" ==> s.apiProvider == "zhipu"
    ensures config.apiKeys.None? ==> s.apiKeys == map["zhipu" := builtinKey, "siliconflow" := ""]
    ensures config.models.None? ==> s.models == map["zhipu" := "glm-4-flash", "siliconflow" := "deepseek-ai/DeepSeek-V3"]
    ensures config.useCustomModels.None? ==> s.useCustomModels == map["zhipu" := false, "siliconflow" := false]
  {
    ApiSettings(
      if config.apiProvider.Some? && config.apiProvider.value != "" then config.apiProvider.value else "zhipu",
      config.apiKeys.GetOr(map["zhipu" := builtinKey, "siliconflow" := ""]),
      config.models.GetOr(map["zhipu" := "glm-4-flash", "siliconflow" := "deepseek-ai/DeepSeek-V3"]),
      config.useCustomModels.GetOr(map["zhipu" := false, "siliconflow" := false]))
  }

  /** saveSettings: the document written holds all four fields. */
  function ToConfig(s: ApiSettings): (c: Config)
    ensures c.apiProvider == Some(s.apiProvider) && c.apiKeys == Some(s.apiKeys)
    ensures c.models == Some(s.models) && c.useCustomModels == Some(s.useCustomModels)
  {
    Config(Some(s.apiProvider), Some(s.apiKeys), Some(s.models), Some(s.useCustomModels))
  }

  /** Saving then loading gives back the settings, except that an empty provider reads back as zhipu. */
  lemma SaveThenLoad(s: ApiSettings, builtinKey: string)
    ensures FromConfig(ToConfig(s), builtinKey)
         == if s.apiProvider == "" then s.(apiProvider := "zhipu") else s
  {
  }

  /**
   * On first run (no configuration saved) the main process's default wins: the
   * keys are empty and the component's own fallback key is never used.
   */
  lemma FirstRunSettings(builtinKey: string)
    ensures FromConfig(Store.DefaultConfig(), builtinKey)
         == ApiSettings(
              "zhipu",
              map["zhipu" := "", "siliconflow" := ""],
              map["zhipu" := "glm-4-flash", "siliconflow" := "deepseek-ai/DeepSeek-V3"],
              map["zhipu" := false, "siliconflow" := false])
  {
  }

  /** A document missing every field yields every fallback, the built-in key included. */
  lemma EmptyDocumentSettings(builtinKey: string)
    ensures FromConfig(Config(None, None, None, None), builtinKey)
         == ApiSettings(
              "zhipu",
              map["zhipu" := builtinKey, "siliconflow" := ""],
              map["zhipu" := "glm-4-flash", "siliconflow" := "deepseek-ai/DeepSeek-V3"],
              map["zhipu" := false, "siliconflow" := false])
  {
  }
}
