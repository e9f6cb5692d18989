/** The program's settings: defaults, the file laid over them, reading one setting and writing one back. */
module Settings {
  import opened Outcomes
  import opened Texts
  import opened TomlLines
  import opened TomlFile

  const LIBRARY: Entries := map["show_unavailable" := Flag(true), "cloud" := Flag(true), "auto_update" := Flag(true), "search_priority" := Text("local")]
  const PUBLISH: Entries := map["auto_publish" := Flag(false), "visibility" := Text("public"), "governance" := Text("protected")]
  const DEFAULTS: Config := map["library" := Table(LIBRARY), "publish" := Table(PUBLISH)]
  const PUBLIC_PREFIX := "cg"

  /** The file's sections laid over the base: a table adds to a table, anything else takes its place. */
  function Merged(base: Config, user: Config): Config {
    map s | s in base.Keys + user.Keys :: if s in user then MergedSection(s, base, user[s]) else base[s]
  }

  function MergedSection(s: string, base: Config, section: Section): Section {
    if s in base && base[s].Table? && section.Table? then Table(base[s].entries + section.entries) else section
  }

  /** What a file means; one that does not read means the defaults. */
  function Loaded(file: Option<string>): Config {
    if file.None? then DEFAULTS
    else
      var user := Read(file.value);
      if user.None? then DEFAULTS else Merged(DEFAULTS, user.value)
  }

  datatype Setting = Setting(section: string, name: string, flag: bool, choices: seq<string>)

  function Schema(key: string): Option<Setting> {
    if key == "auto-publish" then Some(Setting("publish", "auto_publish", true, []))
    else if key == "visibility" then Some(Setting("publish", "visibility", false, ["public", "private"]))
    else if key == "governance" then Some(Setting("publish", "governance", false, ["open", "protected"]))
    else if key == "cloud" then Some(Setting("library", "cloud", true, []))
    else if key == "auto-update" then Some(Setting("library", "auto_update", true, []))
    else if key == "show-unavailable" then Some(Setting("library", "show_unavailable", true, []))
    else if key == "publish-registry" then Some(Setting("publish", "registry", false, []))
    else if key == "search-priority" then Some(Setting("library", "search_priority", false, ["local", "registry"]))
    else None
  }

  const PATHS := "paths"

  /** The binary of a `paths.<binary>` key. */
  function Binary(key: string): Option<string> {
    if "paths." <= key && key[6..] != "" && '/' !in key[6..] && '\\' !in key[6..] then Some(key[6..]) else None
  }

  /** Crash: a top-level value stands where a table is looked up. */
  datatype Reading = UnknownSetting | Crash | Unset | Is(value: Value)

  function Lookup(config: Config, section: string, name: string): Reading {
    if section !in config then Unset
    else
      match config[section]
      case Loose(_) => Crash
      case Table(t) => if name in t then Is(t[name]) else Unset
  }

  predicate Falsy(r: Reading) {
    r == Unset || (r.Is? && (r.value == Text("") || r.value == Flag(false) || r.value == Number(0)))
  }

  function Reported(key: string, r: Reading): Reading {
    if Binary(key).Some? then if r.Is? && r.value.Text? && r.value.text != "" then r else Unset
    else if key == "publish-registry" && Falsy(r) then Is(Text(PUBLIC_PREFIX))
    else r
  }

  /** Where a key is kept. */
  function Slot(key: string): Option<(string, string)> {
    if Binary(key).Some? then Some((PATHS, Binary(key).value))
    else if Schema(key).Some? then Some((Schema(key).value.section, Schema(key).value.name))
    else None
  }

  function Get(config: Config, key: string): Reading {
    var slot := Slot(key);
    if slot.None? then UnknownSetting else Reported(key, Lookup(config, slot.value.0, slot.value.1))
  }

  function LowerChar(c: char): char {
    if 'A' <= c <= 'Z' then (c as int + 32) as char else c
  }

  function Lower(s: string): string {
    seq(|s|, i requires 0 <= i < |s| => LowerChar(s[i]))
  }

  datatype Refusal = EmptyPath | NoSuchSetting | NotAFlag | NotAChoice | NotATable

  /** The value a call stores. */
  function Wanted(key: string, raw: string): Result<Value, Refusal> {
    if Binary(key).Some? then if Strip(raw) == "" then Err(EmptyPath) else Ok(Text(Strip(raw)))
    else
      var setting := Schema(key);
      if setting.None? then Err(NoSuchSetting)
      else if setting.value.flag then
        if Lower(raw) in ["true", "1", "yes"] then Ok(Flag(true))
        else if Lower(raw) in ["false", "0", "no"] then Ok(Flag(false))
        else Err(NotAFlag)
      else if setting.value.choices != [] && raw !in setting.value.choices then Err(NotAChoice)
      else Ok(Text(raw))
  }

  function Put(config: Config, section: string, name: string, v: Value): Result<Config, Refusal> {
    if section !in config then Ok(config[section := Table(map[name := v])])
    else
      match config[section]
      case Loose(_) => Err(NotATable)
      case Table(t) => Ok(config[section := Table(t[name := v])])
  }

  function Changed(config: Config, key: string, raw: string): Result<Config, Refusal> {
    var v := Wanted(key, raw);
    if v.Err? then Err(v.error)
    else
      WantedSlot(key, raw);
      Put(config, Slot(key).value.0, Slot(key).value.1, v.value)
  }

  lemma WantedSlot(key: string, raw: string)
    ensures Wanted(key, raw).Ok? ==> Slot(key).Some?
  {
  }

  /** One call: the file afterwards. */
  function Saved(file: Option<string>, key: string, raw: string): Option<string> {
    var changed := Changed(Loaded(file), key, raw);
    if changed.Ok? then Some(Written(changed.value)) else file
  }

  lemma MergeNone(base: Config, user: Config)
    ensures Merged(base, user - user.Keys) == base
    ensures user - {} == user
  {
  }

  lemma MergeOne(base: Config, user: Config, left: set<string>, s: string)
    requires left <= user.Keys && s in left
    ensures var config := Merged(base, user - left);
      Merged(base, user - (left - {s})) == config[s := MergedSection(s, config, user[s])]
  {
    hide MergedSection;
    var config := Merged(base, user - left);
    assert MergedSection(s, config, user[s]) == MergedSection(s, base, user[s]) by {
      MergeKeeps(base, user, left, s);
    }
  }

  lemma MergeKeeps(base: Config, user: Config, left: set<string>, s: string)
    requires left <= user.Keys && s in left
    ensures var config := Merged(base, user - left);
      MergedSection(s, config, user[s]) == MergedSection(s, base, user[s])
  {
  }

  method Overlay(base: Config, user: Config) returns (config: Config)
    ensures config == Merged(base, user)
  {
    config := base;
    var left := user.Keys;
    MergeNone(base, user);
    while left != {}
      invariant left <= user.Keys
      invariant config == Merged(base, user - left)
    {
      hide Merged, MergedSection;
      var s :| s in left;
      MergeOne(base, user, left, s);
      var section := user[s];
      config := config[s := MergedSection(s, config, section)];
      left := left - {s};
    }
  }

  class SettingsFile {
    var file: Option<string>

    method Load() returns (config: Config)
      ensures config == Loaded(file)
    {
      config := DEFAULTS;
      if file.None? {
        return;
      }
      var user := Read(file.value);
      if user.None? {
        return;
      }
      config := Overlay(config, user.value);
    }

    method GetValue(key: string) returns (r: Reading)
      ensures r == Get(Loaded(file), key)
    {
      var config := Load();
      r := Get(config, key);
    }

    method SetValue(key: string, raw: string) returns (refused: Option<Refusal>)
      modifies this
      ensures file == Saved(old(file), key, raw)
      ensures refused == match Changed(Loaded(old(file)), key, raw) case Ok(_) => None case Err(e) => Some(e)
    {
      var config := Load();
      var changed := Changed(config, key, raw);
      match changed
      case Err(e) =>
        refused := Some(e);
      case Ok(c) =>
        var text := Write(c);
        file := Some(text);
        refused := None;
    }
  }
}
