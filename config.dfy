/** `get_config_var` of main.py: a setting comes from the environment,
    else from the loaded configuration file, else from the fallback. */
module Config {
  import opened Common

  /** What `get_config_var` does: return a value (None included) or raise
      KeyError. */
  datatype Lookup = Returned(value: Option<string>) | KeyError(message: string)

  /** `get_config_var(env_name, config_path, config_name, **kwargs)`.
      `env` is the process environment; `config` the parsed file, where a
      key may hold JSON null; `fallback` and `error` the keyword arguments
      (an absent `fallback` is None, an absent `error` False). */
  function GetConfigVar(env: map<string, string>, envName: string,
                        config: map<string, Option<string>>, configName: string,
                        fallback: Option<string>, error: bool): (r: Lookup)
    ensures envName in env ==> r == Returned(Some(env[envName]))
    ensures envName !in env && configName in config && config[configName].Some?
      ==> r == Returned(config[configName])
    ensures envName !in env && configName !in config && fallback.Some? ==> r == Returned(fallback)
    ensures r.KeyError? <==> error && Resolve(env, envName, config, configName, fallback).None?
    ensures !error ==> r == Returned(Resolve(env, envName, config, configName, fallback))
  {
    var v := if envName in env then Some(env[envName])
             else if configName in config then config[configName]
             else fallback;
    if v.None? && error then
      KeyError("Failed to get configuration key. Env name: " + envName + ", Config name: " + configName)
    else Returned(v)
  }

  /** The precedence on its own: environment, then the file key (even when
      it holds null), then the fallback. */
  function Resolve(env: map<string, string>, envName: string,
                   config: map<string, Option<string>>, configName: string,
                   fallback: Option<string>): Option<string>
  {
    if envName in env then Some(env[envName])
    else if configName in config then config[configName]
    else fallback
  }

  /** Without `error`, a key found nowhere gives None. */
  lemma MissingGivesNone(env: map<string, string>, envName: string,
                         config: map<string, Option<string>>, configName: string)
    requires envName !in env && configName !in config
    ensures GetConfigVar(env, envName, config, configName, None, false) == Returned(None)
    ensures GetConfigVar(env, envName, config, configName, None, true).KeyError?
  {
  }

  /** A file key holding null hides the fallback. */
  lemma NullKeyHidesFallback(env: map<string, string>, envName: string,
                             config: map<string, Option<string>>, configName: string, fallback: string)
    requires envName !in env && configName in config && config[configName].None?
    ensures GetConfigVar(env, envName, config, configName, Some(fallback), false) == Returned(None)
  {
  }
}
