/**
 * `setup_llm`'s configuration resolution: which API key and which model name
 * the healthcare handler hands to the language-model client.
 */
module Configuration {
  import opened Wrappers

  /** The `"configurable"` section of the call's RunnableConfig. A key that is
      absent is `None`; a config without that section is `NoConfiguration`. */
  datatype Configurable = Configurable(groqApiKey: Option<string>, modelName: Option<string>)

  const NoConfiguration := Configurable(None, None)

  const DefaultModelName := "llama3-8b-8192"

  const MissingKeyMessage := "GROQ_API_KEY must be provided in configuration or environment variables"

  /** The arguments `setup_llm` passes to the client's constructor. */
  datatype LlmSettings = LlmSettings(modelName: string, apiKey: string)

  /** The exceptions that leave a handler: the `ValueError` raised for a
      missing key, and a failed call to the language-model service. */
  datatype AgentError = ConfigurationError(message: string) | LlmServiceError

  /** Python truthiness of an optional string: present and not empty. */
  predicate Truthy(v: Option<string>) {
    v.Some? && v.value != ""
  }

  /** `setup_llm`. `envKey` is the value of the GROQ_API_KEY environment
      variable, if it is set. The key is the configured one when that is
      non-empty, otherwise the environment's; when neither is non-empty the
      call fails with the configuration error. The model name is the
      configured one when the key is present (even if empty), otherwise
      the default. */
  function SetupLlm(cfg: Configurable, envKey: Option<string>): (r: Result<LlmSettings, AgentError>)
    ensures r.Err? <==> !Truthy(cfg.groqApiKey) && !Truthy(envKey)
    ensures r.Err? ==> r.error == ConfigurationError(MissingKeyMessage)
    ensures r.Ok? ==> r.value.apiKey != ""
    ensures r.Ok? && Truthy(cfg.groqApiKey) ==> r.value.apiKey == cfg.groqApiKey.value
    ensures r.Ok? && !Truthy(cfg.groqApiKey) ==> r.value.apiKey == envKey.value
    ensures r.Ok? && cfg.modelName.Some? ==> r.value.modelName == cfg.modelName.value
    ensures r.Ok? && cfg.modelName.None? ==> r.value.modelName == DefaultModelName
  {
    var apiKey := if Truthy(cfg.groqApiKey) then cfg.groqApiKey else envKey;
    var modelName := if cfg.modelName.Some? then cfg.modelName.value else DefaultModelName;
    if !Truthy(apiKey) then Err(ConfigurationError(MissingKeyMessage))
    else Ok(LlmSettings(modelName, apiKey.value))
  }

  /** A non-empty configured key wins: the environment is then irrelevant. */
  lemma ConfiguredKeyShadowsEnvironment(cfg: Configurable, env1: Option<string>, env2: Option<string>)
    requires Truthy(cfg.groqApiKey)
    ensures SetupLlm(cfg, env1) == SetupLlm(cfg, env2)
    ensures SetupLlm(cfg, env1).Ok?
  {
  }

  /** An empty configured key counts as no key at all. */
  lemma EmptyKeyFallsBack(cfg: Configurable, envKey: Option<string>)
    requires cfg.groqApiKey == Some("")
    ensures SetupLlm(cfg, envKey) == SetupLlm(cfg.(groqApiKey := None), envKey)
  {
  }
}
