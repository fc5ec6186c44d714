/** The configuration store: a sectioned key/value file, loaded lazily once per process. */
module Config {
  import opened Common

  /** The configuration file as the parser reads it: section, then key, then raw text. */
  type Sections = map<string, map<string, string>>

  /** A configuration value as the lookup hands it out: `"true"`/`"false"` become booleans. */
  datatype ConfigValue = Flag(b: bool) | Text(s: string)

  /** The raw text a configuration value was read from. */
  function Raw(v: ConfigValue): string
  {
    match v
    case Flag(b) => if b then "true" else "false"
    case Text(s) => s
  }

  /** The lookup of `getConfigurationValue` once the file is loaded: a missing section or key
      gives `None`, the strings `"true"` and `"false"` give booleans, any other text is
      returned as it is. The raw text can always be recovered from the result. */
  function GetValue(cfg: Sections, section: string, key: string): (r: Option<ConfigValue>)
    ensures r.None? <==> !(section in cfg && key in cfg[section])
    ensures r.Some? ==> Raw(r.value) == cfg[section][key]
    ensures r.Some? ==> (r.value.Flag? <==> cfg[section][key] == "true" || cfg[section][key] == "false")
  {
    if section in cfg && key in cfg[section] then
      var value := cfg[section][key];
      if value == "true" || value == "false" then Some(Flag(value == "true")) else Some(Text(value))
    else None
  }

  /** Python's `str()` of a looked-up value (`None` becomes the text "None"). */
  function StrOf(o: Option<ConfigValue>): string
  {
    match o
    case None => "None"
    case Some(Flag(b)) => if b then "True" else "False"
    case Some(Text(s)) => s
  }

  /** Python's truth test of a looked-up value. */
  predicate ConfigTruthy(o: Option<ConfigValue>)
  {
    match o
    case None => false
    case Some(Flag(b)) => b
    case Some(Text(s)) => s != ""
  }

  /** A route configuration block as a dictionary; a JSON null (or any non-object) is `None`. */
  function AsObject(v: Value): Option<map<string, Value>>
  {
    if v.VMap? then Some(v.fields) else None
  }

  /** `are_route_config_values_existing`: false for a missing block, otherwise true exactly
      when every needle is a key of the block (so true for no needles). */
  function AreRouteConfigValuesExisting(haystack: Option<map<string, Value>>, needles: seq<string>): (r: bool)
    ensures r <==> haystack.Some? && forall i :: 0 <= i < |needles| ==> needles[i] in haystack.value
    decreases |needles|
  {
    if haystack.None? then false
    else if needles == [] then true
    else if needles[0] !in haystack.value then false
    else AreRouteConfigValuesExisting(haystack, needles[1..])
  }

  /** The process-wide `CONFIG` slot. */
  class ConfigStore {
    var loaded: Option<Sections>

    constructor ()
      ensures loaded == None
    {
      loaded := None;
    }

    /** `getConfigurationValue`: on first use the file is read (`onDisk` is what the parser reads
        at that moment; a missing file reads as no sections, so the slot is never left empty);
        afterwards the loaded sections are reused whatever the file holds. */
    method GetConfigurationValue(section: string, key: string, onDisk: Sections) returns (r: Option<ConfigValue>)
      modifies this
      ensures old(loaded).Some? ==> loaded == old(loaded)
      ensures old(loaded).None? ==> loaded == Some(onDisk)
      ensures r == GetValue(loaded.value, section, key)
    {
      if loaded.None? {
        loaded := Some(onDisk);
      }
      r := GetValue(loaded.value, section, key);
    }
  }
}
