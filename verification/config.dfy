/**
  A model of `BaseConfig` from `main/util_config_mng.py`.

  A configuration is described by a dataclass whose fields all have defaults;
  here the dataclass is the map `defaults` from field name to default value.
  The JSON file is abstracted to the map it holds (`None` while it does not
  exist), with JSON encoding taken as the identity, and every write is
  appended to the log `writes`.  The instance attributes that hold
  configuration values are the map `attrs`.
*/
module Config {
  import opened Results

  datatype ConfigError = KeyError(key: string)

  datatype Config<V> = Config(
    defaults: map<string, V>,
    attrs: map<string, V>,
    file: Option<map<string, V>>,
    writes: seq<map<string, V>>)

  /** What holds after construction: every field is an attribute and the file exists. */
  predicate Valid<V>(c: Config<V>) {
    c.defaults.Keys <= c.attrs.Keys && c.file.Some?
  }

  /** The current values of exactly the dataclass fields. */
  function Snapshot<V>(c: Config<V>): (m: map<string, V>)
    requires c.defaults.Keys <= c.attrs.Keys
    ensures m.Keys == c.defaults.Keys
    ensures forall k :: k in m ==> m[k] == c.attrs[k]
  {
    map k | k in c.defaults.Keys :: c.attrs[k]
  }

  /** Writing a map to the file. */
  function Write<V>(c: Config<V>, data: map<string, V>): (c': Config<V>)
    ensures c'.file == Some(data) && c'.writes == c.writes + [data]
    ensures c'.defaults == c.defaults && c'.attrs == c.attrs
  {
    c.(file := Some(data), writes := c.writes + [data])
  }

  /** `_load_config`: the defaults, overridden by the file's contents, are
      written over the attributes. */
  function LoadConfig<V>(c: Config<V>): (c': Config<V>)
    requires c.file.Some?
    ensures c'.attrs.Keys == c.attrs.Keys + c.defaults.Keys + c.file.value.Keys
    ensures forall k :: k in c.file.value ==> c'.attrs[k] == c.file.value[k]
    ensures forall k :: k in c.defaults && k !in c.file.value ==> c'.attrs[k] == c.defaults[k]
    ensures forall k :: k in c.attrs && k !in c.defaults && k !in c.file.value ==> c'.attrs[k] == c.attrs[k]
    ensures c'.defaults == c.defaults && c'.file == c.file && c'.writes == c.writes
    ensures Valid(c')
  {
    c.(attrs := c.attrs + (c.defaults + c.file.value))
  }

  /** `_save_config()` without an instance: the current field values are written. */
  function SaveConfig<V>(c: Config<V>): (c': Config<V>)
    requires c.defaults.Keys <= c.attrs.Keys
    ensures c'.file.Some? && c'.file.value.Keys == c.defaults.Keys
    ensures forall k :: k in c.defaults ==> c'.file.value[k] == c.attrs[k]
    ensures c'.writes == c.writes + [c'.file.value]
    ensures c'.defaults == c.defaults && c'.attrs == c.attrs
  {
    Write(c, Snapshot(c))
  }

  /** `BaseConfig.__init__` on a file system where the config file holds
      `disk` (`None`: the file does not exist). */
  function Init<V>(defaults: map<string, V>, disk: Option<map<string, V>>): (c: Config<V>)
    ensures Valid(c) && c.defaults == defaults
    ensures disk.None? ==> c.file == Some(defaults) && c.writes == [defaults] && c.attrs == defaults
    ensures disk.Some? ==> c.file == disk && c.writes == []
    ensures disk.Some? ==> c.attrs.Keys == defaults.Keys + disk.value.Keys
    // an existing file overrides the defaults key by key
    ensures disk.Some? ==> c.attrs == defaults + disk.value
  {
    var blank := Config(defaults, map[], disk, []);
    var created := if disk.None? then Write(blank, defaults) else blank;
    LoadConfig(created)
  }

  /** `__getitem__`. */
  function GetItem<V>(c: Config<V>, key: string): (r: Result<V, ConfigError>)
    ensures r.Ok? <==> key in c.attrs
    ensures r.Ok? ==> r.value == c.attrs[key]
    ensures r.Err? ==> r.error == KeyError(key)
  {
    if key in c.attrs then Ok(c.attrs[key]) else Err(KeyError(key))
  }

  /** `__setitem__`: a known key is updated and all fields are written at once. */
  function SetItem<V>(c: Config<V>, key: string, value: V): (r: Result<Config<V>, ConfigError>)
    requires Valid(c)
    ensures r.Ok? <==> key in c.attrs
    ensures r.Err? ==> r.error == KeyError(key)
    ensures r.Ok? ==>
              && Valid(r.value)
              && r.value.attrs == c.attrs[key := value]
              && r.value.defaults == c.defaults
              && r.value.file == Some(Snapshot(r.value))
              && r.value.writes == c.writes + [Snapshot(r.value)]
  {
    if key in c.attrs then
      Ok(SaveConfig(c.(attrs := c.attrs[key := value])))
    else
      Err(KeyError(key))
  }

  /** `save`. */
  function Save<V>(c: Config<V>): (c': Config<V>)
    requires Valid(c)
    ensures Valid(c') && c'.attrs == c.attrs
    ensures c'.file == Some(Snapshot(c)) && c'.writes == c.writes + [Snapshot(c)]
  {
    SaveConfig(c)
  }

  /** `reload`. */
  function Reload<V>(c: Config<V>): (c': Config<V>)
    requires Valid(c)
    ensures Valid(c') && c'.file == c.file && c'.writes == c.writes
  {
    LoadConfig(c)
  }

  /** Saving and then reloading changes no value. */
  lemma SaveReloadKeepsValues<V>(c: Config<V>)
    requires Valid(c)
    ensures Reload(Save(c)).attrs == c.attrs
  {
    var s := Save(c);
    var r := Reload(s);
    assert r.attrs.Keys == c.attrs.Keys;
    forall k | k in c.attrs
      ensures r.attrs[k] == c.attrs[k]
    {
      if k in c.defaults {
        assert k in s.file.value;
      }
    }
  }

  /** A value set on a known key is read back, every other key keeps its
      value, and the file holds the new value. */
  lemma SetThenGet<V>(c: Config<V>, key: string, value: V, other: string)
    requires Valid(c) && key in c.attrs && other != key
    ensures SetItem(c, key, value).Ok?
    ensures GetItem(SetItem(c, key, value).value, key) == Ok(value)
    ensures GetItem(SetItem(c, key, value).value, other) == GetItem(c, other)
    ensures key in c.defaults ==> SetItem(c, key, value).value.file.value[key] == value
  {
  }

  /** Reloading right after construction changes nothing. */
  lemma InitThenReload<V>(defaults: map<string, V>, disk: Option<map<string, V>>)
    ensures Reload(Init(defaults, disk)).attrs == Init(defaults, disk).attrs
  {
  }
}
