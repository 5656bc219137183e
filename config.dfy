/**
 * The Metis configuration (metis/config.py): a table of defaults, each of
 * whose entries the environment variable of the same name may override,
 * converted according to the type of the default, followed by the three
 * component URLs, which are always rebuilt from the ports.
 */
module Config {
  import opened Builtins
  import PortConfig

  /** The values a configuration entry takes: a string, an integer or `None`. */
  datatype Value = Str(s: string) | Int(i: int) | Null

  /** `int()` raised on the named variable's text. */
  datatype ConfigError = InvalidInt(key: string, text: string)

  type Config = map<string, Value>

  /** The keys of `DEFAULT_CONFIG` in the order the dictionary holds them. */
  const DefaultKeys: seq<string> := [
    "SERVICE_NAME", "SERVICE_DESCRIPTION", "SERVICE_VERSION",
    "METIS_PORT", "HERMES_PORT", "TELOS_PORT", "PROMETHEUS_PORT",
    "DB_URL", "API_PREFIX", "WEBSOCKET_PATH", "EVENTS_PATH",
    "HERMES_URL", "TELOS_URL", "PROMETHEUS_URL"]

  /** `DEFAULT_CONFIG`. It is an immutable value, so nothing can modify it. */
  const DefaultConfig: Config := map[
    "SERVICE_NAME" := Str("Metis"),
    "SERVICE_DESCRIPTION" := Str("Task Management System for Tekton"),
    "SERVICE_VERSION" := Str("0.1.0"),
    "METIS_PORT" := Int(8011),
    "HERMES_PORT" := Int(8001),
    "TELOS_PORT" := Int(8008),
    "PROMETHEUS_PORT" := Int(8006),
    "DB_URL" := Str("sqlite:///metis.db"),
    "API_PREFIX" := Str("/api/v1"),
    "WEBSOCKET_PATH" := Str("/ws"),
    "EVENTS_PATH" := Str("/events"),
    "HERMES_URL" := Null,
    "TELOS_URL" := Null,
    "PROMETHEUS_URL" := Null]

  /** The entries rebuilt after the overrides. */
  const UrlKeys: set<string> := {"HERMES_URL", "TELOS_URL", "PROMETHEUS_URL"}

  /** The integer-valued entries. */
  const PortKeys: set<string> := {"METIS_PORT", "HERMES_PORT", "TELOS_PORT", "PROMETHEUS_PORT"}

  /** `DefaultKeys` lists the keys of `DefaultConfig`... */
  lemma DefaultKeysExact()
    ensures forall k :: k in DefaultConfig <==> k in DefaultKeys
  {
  }

  /** ... each of them once. */
  lemma DefaultKeysDistinct()
    ensures forall i, j :: 0 <= i < j < |DefaultKeys| ==> DefaultKeys[i] != DefaultKeys[j]
  {
  }

  /** Exactly the port entries have integer defaults. */
  lemma PortKeysAreTheIntegers()
    ensures forall k :: k in DefaultConfig ==> (DefaultConfig[k].Int? <==> k in PortKeys)
    ensures PortKeys <= DefaultConfig.Keys && UrlKeys <= DefaultConfig.Keys
  {
  }

  /** How an f-string interpolates a value. */
  function Format(v: Value): string {
    match v
    case Str(s) => s
    case Int(i) => IntToDecimal(i)
    case Null => "None"
  }

  /** One entry after its override: the default when the variable is unset;
      otherwise the variable parsed as an integer when the current value is
      an integer, and the variable's text as it is in every other case. */
  function Overridden(current: Value, key: string, env: Env): (r: Result<Value, ConfigError>)
    ensures key !in env ==> r == Ok(current)
    ensures key in env && !current.Int? ==> r == Ok(Str(env[key]))
    ensures key in env && current.Int? ==>
      (r.Ok? <==> ParseDecimal(env[key]).Some?) &&
      (r.Ok? ==> r.value == Int(ParseDecimal(env[key]).value)) &&
      (r.Err? ==> r.error == InvalidInt(key, env[key]))
  {
    if key !in env then Ok(current)
    else if current.Int? then
      match ParseDecimal(env[key])
      case Some(n) => Ok(Int(n))
      case None => Err(InvalidInt(key, env[key]))
    else Ok(Str(env[key]))
  }

  /** The error of the first key, in the given order, whose override fails. */
  function FirstError(defaults: Config, keys: seq<string>, env: Env): Option<ConfigError>
    requires forall k :: k in keys ==> k in defaults
  {
    if keys == [] then None
    else match Overridden(defaults[keys[0]], keys[0], env)
      case Err(e) => Some(e)
      case Ok(_) => FirstError(defaults, keys[1..], env)
  }

  /** There is no first error exactly when every override succeeds. */
  lemma {:induction false} FirstErrorNone(defaults: Config, keys: seq<string>, env: Env)
    requires forall k :: k in keys ==> k in defaults
    ensures FirstError(defaults, keys, env).None? <==> forall k :: k in keys ==> Overridden(defaults[k], k, env).Ok?
  {
    if keys != [] {
      FirstErrorNone(defaults, keys[1..], env);
    }
  }

  /** Every entry with its override applied, when none of them fails. */
  function AllOverridden(defaults: Config, env: Env): (config: Config)
    requires forall k :: k in defaults ==> Overridden(defaults[k], k, env).Ok?
    ensures config.Keys == defaults.Keys
  {
    map k | k in defaults :: Overridden(defaults[k], k, env).value
  }

  /** The overrides of `get_config`'s loop over `keys`, the keys of
      `defaults` in dictionary order: the first failure in that order
      raises, otherwise every entry is overridden. */
  function Overrides(defaults: Config, keys: seq<string>, env: Env): Result<Config, ConfigError>
    requires forall k :: k in defaults <==> k in keys
  {
    FirstErrorNone(defaults, keys, env);
    match FirstError(defaults, keys, env)
    case Some(e) => Err(e)
    case None => Ok(AllOverridden(defaults, env))
  }

  /** The three component URLs, rebuilt from the ports. */
  function WithUrls(config: Config): Config
    requires "HERMES_PORT" in config && "TELOS_PORT" in config && "PROMETHEUS_PORT" in config
  {
    config["HERMES_URL" := Str("http://localhost:" + Format(config["HERMES_PORT"]))]
          ["TELOS_URL" := Str("http://localhost:" + Format(config["TELOS_PORT"]))]
          ["PROMETHEUS_URL" := Str("http://localhost:" + Format(config["PROMETHEUS_PORT"]))]
  }

  /** What `get_config` returns, stated on the whole table at once. */
  function MergedConfig(env: Env): Result<Config, ConfigError> {
    DefaultKeysExact();
    match Overrides(DefaultConfig, DefaultKeys, env)
    case Err(e) => Err(e)
    case Ok(config) => Ok(WithUrls(config))
  }

  /** `get_config`: copy the defaults, override them, rebuild the URLs. */
  method GetConfig(env: Env) returns (r: Result<Config, ConfigError>)
    ensures r == MergedConfig(env)
  {
    DefaultKeysExact();
    DefaultKeysDistinct();
    var overridden := ApplyOverrides(DefaultConfig, DefaultKeys, env);
    if overridden.Err? {
      return Err(overridden.error);
    }
    var config := overridden.value;
    config := config["HERMES_URL" := Str("http://localhost:" + Format(config["HERMES_PORT"]))];
    config := config["TELOS_URL" := Str("http://localhost:" + Format(config["TELOS_PORT"]))];
    config := config["PROMETHEUS_URL" := Str("http://localhost:" + Format(config["PROMETHEUS_PORT"]))];
    r := Ok(config);
  }

  /** The loop of `get_config`: for each key in dictionary order whose
      variable is set, convert the variable by the type of the entry's
      current value and store it; a failed `int()` ends the loop. */
  method ApplyOverrides(defaults: Config, keys: seq<string>, env: Env) returns (r: Result<Config, ConfigError>)
    requires forall k :: k in defaults <==> k in keys
    requires forall i, j :: 0 <= i < j < |keys| ==> keys[i] != keys[j]
    ensures r == Overrides(defaults, keys, env)
  {
    var config := defaults;
    var i := 0;
    while i < |keys|
      invariant 0 <= i <= |keys|
      invariant config.Keys == defaults.Keys
      invariant FirstError(defaults, keys[..i], env) == None
      invariant forall j :: 0 <= j < i ==> Ok(config[keys[j]]) == Overridden(defaults[keys[j]], keys[j], env)
      invariant forall j :: i <= j < |keys| ==> config[keys[j]] == defaults[keys[j]]
    {
      var key := keys[i];
      assert keys[..i + 1] == keys[..i] + [key];
      FirstErrorAppend(defaults, keys[..i], key, env);
      if key in env {
        if config[key].Int? {
          var parsed := ParseDecimal(env[key]);
          if parsed.None? {
            FirstErrorSplit(defaults, keys, i, env);
            return Err(InvalidInt(key, env[key]));
          }
          config := config[key := Int(parsed.value)];
        } else {
          config := config[key := Str(env[key])];
        }
      }
      i := i + 1;
    }
    assert keys[..i] == keys;
    FinishedOverrides(defaults, keys, config, env);
    r := Ok(config);
  }

  /** A table whose every entry is overridden, and without error, is the
      table of all overrides. */
  lemma FinishedOverrides(defaults: Config, keys: seq<string>, config: Config, env: Env)
    requires forall k :: k in defaults <==> k in keys
    requires config.Keys == defaults.Keys
    requires FirstError(defaults, keys, env) == None
    requires forall j :: 0 <= j < |keys| ==> Ok(config[keys[j]]) == Overridden(defaults[keys[j]], keys[j], env)
    ensures Overrides(defaults, keys, env) == Ok(config)
  {
    forall k | k in defaults
      ensures config[k] == AllOverridden(defaults, env)[k]
    {
      var j :| 0 <= j < |keys| && keys[j] == k;
    }
    assert config == AllOverridden(defaults, env);
  }

  lemma {:induction false} FirstErrorAppend(defaults: Config, keys: seq<string>, key: string, env: Env)
    requires forall k :: k in keys ==> k in defaults
    requires key in defaults
    requires FirstError(defaults, keys, env) == None
    ensures FirstError(defaults, keys + [key], env) ==
      if Overridden(defaults[key], key, env).Err? then Some(Overridden(defaults[key], key, env).error) else None
  {
    if keys == [] {
      assert keys + [key] == [key];
    } else {
      assert (keys + [key])[1..] == keys[1..] + [key];
      FirstErrorAppend(defaults, keys[1..], key, env);
    }
  }

  /** When no key before position `i` fails, the first error is that of `i`. */
  lemma {:induction false} FirstErrorSplit(defaults: Config, keys: seq<string>, i: nat, env: Env)
    requires forall k :: k in keys ==> k in defaults
    requires i < |keys|
    requires FirstError(defaults, keys[..i], env) == None
    requires Overridden(defaults[keys[i]], keys[i], env).Err?
    ensures FirstError(defaults, keys, env) == Some(Overridden(defaults[keys[i]], keys[i], env).error)
  {
    if i > 0 {
      assert keys[..i][1..] == keys[1..][..i - 1];
      FirstErrorSplit(defaults, keys[1..], i - 1, env);
    }
  }

  // ---------------------------------------------------------------------
  // What get_config promises, stated on MergedConfig

  /** The result has exactly the keys of the defaults: variables under any
      other name are ignored. */
  lemma MergedConfigKeys(env: Env)
    ensures MergedConfig(env).Ok? ==> MergedConfig(env).value.Keys == DefaultConfig.Keys
  {
  }

  /** Every entry other than the URLs: the default when its variable is
      unset, the parsed integer for a port, the variable's text otherwise. */
  lemma MergedConfigEntry(env: Env, key: string)
    requires key in DefaultConfig && key !in UrlKeys
    requires MergedConfig(env).Ok?
    ensures key !in env ==> MergedConfig(env).value[key] == DefaultConfig[key]
    ensures key in env && key in PortKeys ==>
      ParseDecimal(env[key]).Some? && MergedConfig(env).value[key] == Int(ParseDecimal(env[key]).value)
    ensures key in env && key !in PortKeys ==> MergedConfig(env).value[key] == Str(env[key])
  {
    MergedConfigOverrides(env);
    PortKeysAreTheIntegers();
    var config := AllOverridden(DefaultConfig, env);
    assert MergedConfig(env).value[key] == config[key];
  }

  /** When `MergedConfig` succeeds, every override succeeded. */
  lemma MergedConfigOverrides(env: Env)
    requires MergedConfig(env).Ok?
    ensures forall k :: k in DefaultConfig ==> Overridden(DefaultConfig[k], k, env).Ok?
    ensures MergedConfig(env).value == WithUrls(AllOverridden(DefaultConfig, env))
  {
    DefaultKeysExact();
    assert FirstError(DefaultConfig, DefaultKeys, env).None?;
    FirstErrorNone(DefaultConfig, DefaultKeys, env);
  }

  /** The three URLs always point at the ports the result holds. */
  lemma MergedConfigUrls(env: Env)
    requires MergedConfig(env).Ok?
    ensures var config := MergedConfig(env).value;
      && config["HERMES_PORT"].Int? && config["TELOS_PORT"].Int? && config["PROMETHEUS_PORT"].Int?
      && config["HERMES_URL"] == Str(PortConfig.LocalUrl("http", config["HERMES_PORT"].i))
      && config["TELOS_URL"] == Str(PortConfig.LocalUrl("http", config["TELOS_PORT"].i))
      && config["PROMETHEUS_URL"] == Str(PortConfig.LocalUrl("http", config["PROMETHEUS_PORT"].i))
  {
    MergedConfigOverrides(env);
    var overridden := AllOverridden(DefaultConfig, env);
    assert overridden["HERMES_PORT"].Int? && overridden["TELOS_PORT"].Int? && overridden["PROMETHEUS_PORT"].Int?;
    UrlsFromPorts(overridden);
  }

  /** `WithUrls` rebuilds every URL from an integer port. */
  lemma UrlsFromPorts(config: Config)
    requires "HERMES_PORT" in config && "TELOS_PORT" in config && "PROMETHEUS_PORT" in config
    requires config["HERMES_PORT"].Int? && config["TELOS_PORT"].Int? && config["PROMETHEUS_PORT"].Int?
    ensures var result := WithUrls(config);
      && result["HERMES_PORT"] == config["HERMES_PORT"]
      && result["TELOS_PORT"] == config["TELOS_PORT"]
      && result["PROMETHEUS_PORT"] == config["PROMETHEUS_PORT"]
      && result["HERMES_URL"] == Str(PortConfig.LocalUrl("http", config["HERMES_PORT"].i))
      && result["TELOS_URL"] == Str(PortConfig.LocalUrl("http", config["TELOS_PORT"].i))
      && result["PROMETHEUS_URL"] == Str(PortConfig.LocalUrl("http", config["PROMETHEUS_PORT"].i))
  {
    PortConfig.HttpLocalUrl(config["HERMES_PORT"].i);
    PortConfig.HttpLocalUrl(config["TELOS_PORT"].i);
    PortConfig.HttpLocalUrl(config["PROMETHEUS_PORT"].i);
  }

  /** A port variable that is set but not a decimal number. */
  predicate BadPort(env: Env, key: string) {
    key in env && ParseDecimal(env[key]).None?
  }

  /** An override fails exactly on a bad port variable. */
  lemma OverriddenFails(env: Env, key: string)
    requires key in DefaultConfig
    ensures Overridden(DefaultConfig[key], key, env).Err? <==> key in PortKeys && BadPort(env, key)
    ensures Overridden(DefaultConfig[key], key, env).Err? ==>
      Overridden(DefaultConfig[key], key, env).error == InvalidInt(key, env[key])
  {
    PortKeysAreTheIntegers();
  }

  /** The error `FirstError` reports is that of a failing key before which
      no key fails. */
  lemma {:induction false} FirstErrorIsFirst(defaults: Config, keys: seq<string>, env: Env)
    requires forall k :: k in keys ==> k in defaults
    requires FirstError(defaults, keys, env).Some?
    ensures exists j ::
              && 0 <= j < |keys|
              && Overridden(defaults[keys[j]], keys[j], env) == Err(FirstError(defaults, keys, env).value)
              && forall i :: 0 <= i < j ==> Overridden(defaults[keys[i]], keys[i], env).Ok?
  {
    if Overridden(defaults[keys[0]], keys[0], env).Ok? {
      FirstErrorIsFirst(defaults, keys[1..], env);
      var j :| 0 <= j < |keys[1..]|
        && Overridden(defaults[keys[1..][j]], keys[1..][j], env) == Err(FirstError(defaults, keys[1..], env).value)
        && forall i :: 0 <= i < j ==> Overridden(defaults[keys[1..][i]], keys[1..][i], env).Ok?;
      assert forall i :: 0 <= i < j + 1 ==> Overridden(defaults[keys[i]], keys[i], env).Ok? by {
        forall i | 0 <= i < j + 1 ensures Overridden(defaults[keys[i]], keys[i], env).Ok? {
          if i > 0 { assert keys[i] == keys[1..][i - 1]; }
        }
      }
      assert keys[j + 1] == keys[1..][j];
    } else {
      assert Overridden(defaults[keys[0]], keys[0], env) == Err(FirstError(defaults, keys, env).value);
    }
  }

  /** `get_config` raises exactly when some port variable is not a number,
      and it reports the first such port in dictionary order. */
  lemma MergedConfigFails(env: Env)
    ensures MergedConfig(env).Err? <==> exists k :: k in PortKeys && BadPort(env, k)
    ensures MergedConfig(env).Err? ==>
              exists j ::
                && 0 <= j < |DefaultKeys|
                && DefaultKeys[j] in PortKeys && BadPort(env, DefaultKeys[j])
                && MergedConfig(env).error == InvalidInt(DefaultKeys[j], env[DefaultKeys[j]])
                && forall i :: 0 <= i < j && DefaultKeys[i] in PortKeys ==> !BadPort(env, DefaultKeys[i])
  {
    DefaultKeysExact();
    PortKeysAreTheIntegers();
    forall k | k in DefaultConfig {
      OverriddenFails(env, k);
    }
    FirstErrorNone(DefaultConfig, DefaultKeys, env);
    if FirstError(DefaultConfig, DefaultKeys, env).Some? {
      FirstErrorIsFirst(DefaultConfig, DefaultKeys, env);
    }
  }

  /** With no variable set for any key, the overrides change nothing. */
  lemma {:induction false} OverridesWithoutVariables(defaults: Config, keys: seq<string>, env: Env)
    requires forall k :: k in defaults <==> k in keys
    requires forall k :: k in defaults ==> k !in env
    ensures Overrides(defaults, keys, env) == Ok(defaults)
  {
    FirstErrorNone(defaults, keys, env);
    assert AllOverridden(defaults, env) == defaults;
  }

  /** With no variable set for any entry, the result is the defaults, with
      the URLs filled in from the default ports. */
  lemma MergedConfigWithoutOverrides(env: Env)
    requires forall k :: k in DefaultConfig ==> k !in env
    ensures MergedConfig(env) == Ok(WithUrls(DefaultConfig))
    ensures WithUrls(DefaultConfig)["HERMES_URL"] == Str(PortConfig.LocalUrl("http", 8001))
    ensures WithUrls(DefaultConfig)["TELOS_URL"] == Str(PortConfig.LocalUrl("http", 8008))
    ensures WithUrls(DefaultConfig)["PROMETHEUS_URL"] == Str(PortConfig.LocalUrl("http", 8006))
  {
    DefaultKeysExact();
    OverridesWithoutVariables(DefaultConfig, DefaultKeys, env);
    UrlsFromPorts(DefaultConfig);
  }

  /** Two outcomes of an override that leave `FirstError` unable to tell
      them apart. */
  predicate SameOutcome(a: Result<Value, ConfigError>, b: Result<Value, ConfigError>) {
    (a.Ok? && b.Ok?) || a == b
  }

  lemma {:induction false} FirstErrorAgree(defaults: Config, keys: seq<string>, env1: Env, env2: Env)
    requires forall k :: k in keys ==> k in defaults
    requires forall k :: k in keys ==> SameOutcome(Overridden(defaults[k], k, env1), Overridden(defaults[k], k, env2))
    ensures FirstError(defaults, keys, env1) == FirstError(defaults, keys, env2)
  {
    if keys != [] {
      FirstErrorAgree(defaults, keys[1..], env1, env2);
    }
  }

  /** Rebuilding the URLs discards whatever the URL entries held. */
  lemma WithUrlsOverwrites(c1: Config, c2: Config)
    requires c1.Keys == c2.Keys
    requires "HERMES_PORT" in c1 && "TELOS_PORT" in c1 && "PROMETHEUS_PORT" in c1
    requires forall k :: k in c1 && k !in UrlKeys ==> c1[k] == c2[k]
    ensures WithUrls(c1) == WithUrls(c2)
  {
    assert c1["HERMES_PORT"] == c2["HERMES_PORT"];
    assert c1["TELOS_PORT"] == c2["TELOS_PORT"];
    assert c1["PROMETHEUS_PORT"] == c2["PROMETHEUS_PORT"];
  }

  lemma OverridesAgree(env1: Env, env2: Env)
    requires forall k :: k in DefaultConfig && k !in UrlKeys ==>
      (k in env1 <==> k in env2) && (k in env1 ==> env1[k] == env2[k])
    ensures forall k :: k in DefaultConfig ==>
      SameOutcome(Overridden(DefaultConfig[k], k, env1), Overridden(DefaultConfig[k], k, env2))
    ensures forall k :: k in DefaultConfig && k !in UrlKeys ==>
      Overridden(DefaultConfig[k], k, env1) == Overridden(DefaultConfig[k], k, env2)
  {
    forall k | k in UrlKeys ensures !DefaultConfig[k].Int? {
    }
  }

  /** The result depends on the environment only through the variables
      named like the non-URL entries: variables under other names, and
      variables named like the URL entries, have no effect. */
  lemma MergedConfigReadsOnlyItsVariables(env1: Env, env2: Env)
    requires forall k :: k in DefaultConfig && k !in UrlKeys ==>
      (k in env1 <==> k in env2) && (k in env1 ==> env1[k] == env2[k])
    ensures MergedConfig(env1) == MergedConfig(env2)
  {
    OverridesAgree(env1, env2);
    DefaultKeysExact();
    FirstErrorAgree(DefaultConfig, DefaultKeys, env1, env2);
    if MergedConfig(env1).Ok? {
      MergedConfigOverrides(env1);
      MergedConfigOverrides(env2);
      WithUrlsOverwrites(AllOverridden(DefaultConfig, env1), AllOverridden(DefaultConfig, env2));
    }
  }
}
