/**
  Configuration values and their boolean reading (`get_config_bool_value`).
  A configuration entry is either a real boolean (a default given in code) or
  the text written in the site's configuration file.
 */
module Common {

  datatype ConfigValue = Flag(b: bool) | Setting(text: string)

  /** The site configuration: option name to value, absent when not set. */
  type Config = map<string, ConfigValue>

  /** The value `config.get(name, default)` returns. */
  function Lookup(config: Config, name: string, default: ConfigValue): ConfigValue {
    if name in config then config[name] else default
  }

  /** `get_config_bool_value(name, default)`: a boolean is kept, and any other value
      is true unless it is exactly the text `False`. The default default is `False`. */
  function GetConfigBoolValue(config: Config, name: string, default: ConfigValue := Flag(false)): (r: bool)
    ensures !r <==> Lookup(config, name, default) in {Flag(false), Setting("False")}
  {
    var value := Lookup(config, name, default);
    match value
    case Flag(b) => b
    case Setting(t) => t != "False"
  }

  /** A configured boolean is returned unchanged. */
  lemma ConfigBoolOfFlag(config: Config, name: string, default: ConfigValue)
    requires name in config && config[name].Flag?
    ensures GetConfigBoolValue(config, name, default) == config[name].b
  {
  }

  /** Only the exact text `False` is false; `false`, `0` and the empty text are all true. */
  lemma ConfigBoolOfText(config: Config, name: string, default: ConfigValue)
    requires name in config && config[name].Setting?
    ensures GetConfigBoolValue(config, name, default) <==> config[name].text != "False"
    ensures config[name].text in {"false", "0", "", "no"} ==> GetConfigBoolValue(config, name, default)
  {
  }

  /** An option that is not set reads as its default, which is `False` unless one is given. */
  lemma ConfigBoolOfMissing(config: Config, name: string)
    requires name !in config
    ensures !GetConfigBoolValue(config, name)
    ensures GetConfigBoolValue(config, name, Flag(true))
  {
  }
}
