/** The settings by name: where each is kept, what it takes, and how it reads while nothing is stored. */
module SettingsKeys {
  import opened Outcomes
  import opened Texts
  import opened TomlLines
  import opened TomlFile
  import opened Settings

  /** Section and name in the file, setting by setting. */
  const PLACES: map<string, (string, string)> := map[
    "cloud" := ("library", "cloud"), "auto-update" := ("library", "auto_update"),
    "show-unavailable" := ("library", "show_unavailable"), "search-priority" := ("library", "search_priority"),
    "auto-publish" := ("publish", "auto_publish"), "visibility" := ("publish", "visibility"),
    "governance" := ("publish", "governance"), "publish-registry" := ("publish", "registry")
  ]

  const FLAGS := {"cloud", "auto-update", "show-unavailable", "auto-publish"}

  /** What a setting of few values takes. */
  const CHOICES: map<string, set<string>> := map[
    "search-priority" := {"local", "registry"}, "visibility" := {"public", "private"}, "governance" := {"open", "protected"}
  ]

  lemma NoPath(key: string)
    requires key in PLACES
    ensures Binary(key) == None
  {
    var p := "paths.";
    assert p[0] == 'p' && p[1] == 'a';
  }

  /** Where every key is kept: a setting in its place, a path under its binary, anything else nowhere. */
  lemma WhereKept(key: string)
    ensures key in PLACES ==> Slot(key) == Some(PLACES[key])
    ensures key !in PLACES ==> Slot(key) == if Binary(key).Some? then Some(("paths", Binary(key).value)) else None
  {
    if key in PLACES {
      NoPath(key);
    }
    hide Binary;
  }

  /** A path's key is `paths.` and a name that is not empty and has no slash of either kind. */
  lemma PathKeys(key: string, binary: string)
    ensures Binary(key) == Some(binary) <==>
      key == "paths." + binary && binary != "" && forall c :: c in binary ==> c != '/' && c != '\\'
  {
    if key == "paths." + binary {
      assert key[6..] == binary;
    }
    if Binary(key) == Some(binary) {
      assert key == key[..6] + key[6..];
    }
  }

  /** What each key takes, and why it refuses. */
  lemma WhatKeysTake(key: string, raw: string)
    ensures key in FLAGS ==>
      Wanted(key, raw) ==
        if Lower(raw) in {"true", "1", "yes"} then Ok(Flag(true))
        else if Lower(raw) in {"false", "0", "no"} then Ok(Flag(false)) else Err(NotAFlag)
    ensures key in CHOICES ==> Wanted(key, raw) == if raw in CHOICES[key] then Ok(Text(raw)) else Err(NotAChoice)
    ensures key == "publish-registry" ==> Wanted(key, raw) == Ok(Text(raw))
    ensures Binary(key).Some? ==> Wanted(key, raw) == if Blank(raw) then Err(EmptyPath) else Ok(Text(Strip(raw)))
    ensures key !in PLACES && Binary(key).None? ==> Wanted(key, raw) == Err(NoSuchSetting)
  {
    if key in FLAGS {
      FlagsTake(key, raw);
    } else if key in CHOICES {
      ChoicesTake(key, raw);
    } else if key in PLACES {
      RegistryTakes(key, raw);
    }
    hide Lower, Strip, Binary;
  }

  lemma FlagsTake(key: string, raw: string)
    requires key in FLAGS
    ensures Binary(key) == None
    ensures Wanted(key, raw) ==
        if Lower(raw) in {"true", "1", "yes"} then Ok(Flag(true))
        else if Lower(raw) in {"false", "0", "no"} then Ok(Flag(false)) else Err(NotAFlag)
  {
    assert key in PLACES;
    NoPath(key);
    hide Lower, Binary, Strip;
    assert Schema(key).Some? && Schema(key).value.flag;
  }

  lemma ChoicesTake(key: string, raw: string)
    requires key in CHOICES
    ensures Binary(key) == None
    ensures Wanted(key, raw) == if raw in CHOICES[key] then Ok(Text(raw)) else Err(NotAChoice)
  {
    assert key in PLACES;
    NoPath(key);
    hide Lower, Binary, Strip;
    assert Schema(key).Some? && !Schema(key).value.flag;
    assert raw in Schema(key).value.choices <==> raw in CHOICES[key];
  }

  lemma RegistryTakes(key: string, raw: string)
    requires key in PLACES && key !in FLAGS && key !in CHOICES
    ensures key == "publish-registry" && Binary(key) == None && Wanted(key, raw) == Ok(Text(raw))
  {
    NoPath(key);
    hide Lower, Binary, Strip;
  }

  /** Flags are read without regard to capitals. */
  lemma LowerIs(s: string)
    ensures |Lower(s)| == |s|
    ensures forall i :: 0 <= i < |s| ==>
      if s[i] in CAPITALS then exists k :: 0 <= k < 26 && s[i] == CAPITALS[k] && Lower(s)[i] == LETTERS[k] else Lower(s)[i] == s[i]
  {
    forall i | 0 <= i < |s|
      ensures if s[i] in CAPITALS then exists k :: 0 <= k < 26 && s[i] == CAPITALS[k] && Lower(s)[i] == LETTERS[k] else Lower(s)[i] == s[i]
    {
      LowerCharIs(s[i]);
    }
  }

  lemma LowerCharIs(c: char)
    ensures if c in CAPITALS then exists k :: 0 <= k < 26 && c == CAPITALS[k] && LowerChar(c) == LETTERS[k] else LowerChar(c) == c
  {
    CapitalsAre(c);
    if 'A' <= c <= 'Z' {
      var k := c as int - 'A' as int;
      LetterAt(k);
      assert CAPITALS[k] == c && LowerChar(c) == LETTERS[k];
    }
  }

  lemma LetterAt(k: nat)
    requires k < 26
    ensures LETTERS[k] as int == 'a' as int + k
  {
  }

  /** What every setting reads as while nothing is stored. */
  const UNSTORED: map<string, Value> := map[
    "cloud" := Flag(true), "auto-update" := Flag(true), "show-unavailable" := Flag(true), "search-priority" := Text("local"),
    "auto-publish" := Flag(false), "visibility" := Text("public"), "governance" := Text("protected"), "publish-registry" := Text("cg")
  ]

  lemma DefaultsRead(key: string)
    requires key in PLACES
    ensures key in UNSTORED && Get(DEFAULTS, key) == Is(UNSTORED[key])
  {
    WhereKept(key);
    NoPath(key);
    hide Binary, Schema, Slot;
    if PLACES[key].0 == "library" {
      assert DEFAULTS["library"] == Table(LIBRARY);
    } else {
      assert DEFAULTS["publish"] == Table(PUBLISH);
    }
  }

  /** The publish registry reads as cg while it is not stored, or stored as something empty. */
  lemma RegistryReads(config: Config)
    ensures "publish" in config && config["publish"].Table? ==>
      var t := config["publish"].entries;
      Get(config, "publish-registry") ==
        if "registry" !in t || t["registry"] in {Text(""), Flag(false), Number(0)} then Is(Text("cg")) else Is(t["registry"])
    ensures "publish" !in config ==> Get(config, "publish-registry") == Is(Text("cg"))
  {
    WhereKept("publish-registry");
    NoPath("publish-registry");
    hide Binary, Schema, Slot;
  }

  /** What a loaded file says of a place: the file's own value, or where its section has none the default's. */
  lemma LoadedReads(user: Config, section: string, name: string)
    ensures section !in user ==> Lookup(Merged(DEFAULTS, user), section, name) == Lookup(DEFAULTS, section, name)
    ensures section in user && user[section].Loose? ==> Lookup(Merged(DEFAULTS, user), section, name) == Crash
    ensures section in user && user[section].Table? ==>
      var t := user[section].entries;
      Lookup(Merged(DEFAULTS, user), section, name) == if name in t then Is(t[name]) else Lookup(DEFAULTS, section, name)
  {
    assert forall s :: s in DEFAULTS ==> DEFAULTS[s].Table?;
  }
}
