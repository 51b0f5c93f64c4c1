/** The configuration record every component reads (the keys of `load_config`). */
module Config {
  import opened Wrappers

  /** `absent` holds the keys the configuration document leaves out (a
      `config.json` or `GITHUB_APP_CONFIG` document need not carry every key).
      `get_config_value` reads an absent key as its default, and the field of
      an absent key holds that default: `None` for the optional strings, which
      otherwise mean a JSON `null`. The webhook handler's direct `config[key]`
      lookups raise `KeyError` on an absent key instead. A record in which an
      absent key's field holds anything else does not come from
      `load_config` and is outside the model. */
  datatype Config = Config(
    appId: Option<string>,
    privateKey: Option<string>,
    webhookSecret: Option<string>,
    checkSignature: bool,
    autoPrReview: bool,
    editPrDesc: bool,
    apiBaseUrl: Option<string>,
    absent: set<string>)

  const DefaultApiBase: string := "https://api.github.com"

  /** `get_config_value("api_base_url", "https://api.github.com")`. */
  function ApiBase(cfg: Config): string {
    cfg.apiBaseUrl.GetOr(DefaultApiBase)
  }

  /** Python truthiness of a string-or-`None` value. */
  predicate NonEmpty(v: Option<string>) {
    v.Some? && v.value != ""
  }
}
