/** A setting that was stored reads back, the others stay, over every run of calls; and when that fails. */
module SettingsLaws {
  import opened Outcomes
  import opened Texts
  import opened TomlLines
  import opened TomlFile
  import opened TomlRoundTrip
  import opened Settings

  lemma LibraryBare()
    ensures BareEntries(LIBRARY) && CleanEntries(LIBRARY)
  {
    assert BareKey("show_unavailable") && BareKey("cloud") && BareKey("auto_update") && BareKey("search_priority");
    hide BareKey;
  }

  lemma PublishBare()
    ensures BareEntries(PUBLISH) && CleanEntries(PUBLISH)
  {
    assert BareKey("auto_publish") && BareKey("visibility") && BareKey("governance");
    hide BareKey;
  }

  lemma DefaultsBare()
    ensures BareNames(DEFAULTS) && AllClean(DEFAULTS)
  {
    LibraryBare();
    PublishBare();
    assert BareKey("library") && BareKey("publish");
    hide BareKey, BareEntries, CleanEntries;
  }

  lemma MergedBare(base: Config, user: Config)
    requires BareNames(base) && BareNames(user)
    ensures BareNames(Merged(base, user))
  {
    hide BareKey;
  }

  lemma LoadedBare(file: Option<string>)
    ensures BareNames(Loaded(file))
  {
    hide BareNames, Read, Merged;
    DefaultsBare();
    if file.Some? && Read(file.value).Some? {
      ReadBare(file.value);
      MergedBare(DEFAULTS, Read(file.value).value);
    }
  }

  // ---- what the writer loses

  /** The configuration a written one comes back as: loose values and nested tables are gone, missing defaults are back. */
  function Settled(config: Config): Config {
    Merged(DEFAULTS, Kept(config))
  }

  /** What a place still holds then. */
  function Survives(config: Config, section: string, name: string): Reading {
    var r := Lookup(config, section, name);
    if r.Is? && r.value != Nested then r else Lookup(DEFAULTS, section, name)
  }

  lemma KeptLookup(config: Config, section: string, name: string)
    ensures var r := Lookup(config, section, name);
      Lookup(Kept(config), section, name) == if r.Is? && r.value != Nested then r else Unset
  {
    KeptAt(config, section);
    hide Kept;
  }

  lemma MergedLookup(user: Config, section: string, name: string)
    requires forall s :: s in user ==> user[s].Table?
    ensures Lookup(Merged(DEFAULTS, user), section, name) ==
      if Lookup(user, section, name).Is? then Lookup(user, section, name) else Lookup(DEFAULTS, section, name)
  {
  }

  lemma SettledLookup(config: Config, section: string, name: string)
    ensures Lookup(Settled(config), section, name) == Survives(config, section, name)
  {
    hide Kept, Merged, Lookup;
    forall s | s in Kept(config)
      ensures Kept(config)[s].Table?
    {
      KeptAt(config, s);
    }
    KeptLookup(config, section, name);
    MergedLookup(Kept(config), section, name);
    DefaultsLookup(section, name);
  }

  lemma DefaultsLookup(section: string, name: string)
    ensures var r := Lookup(DEFAULTS, section, name); r == Unset || (r.Is? && r.value != Nested)
  {
  }

  /** Two configurations of tables are the same when they hold the same in every place and name the same tables. */
  lemma SameConfig(a: Config, b: Config)
    requires a.Keys == b.Keys && forall s :: s in a ==> a[s].Table? && b[s].Table?
    requires forall s, n :: Lookup(a, s, n) == Lookup(b, s, n)
    ensures a == b
  {
    forall s | s in a
      ensures a[s] == b[s]
    {
      forall n
        ensures n in a[s].entries <==> n in b[s].entries
        ensures n in a[s].entries ==> a[s].entries[n] == b[s].entries[n]
      {
        assert Lookup(a, s, n) == Lookup(b, s, n);
      }
    }
  }

  /** Tables only, nothing nested, no default missing: what the writer loses nothing of. */
  ghost predicate Whole(config: Config) {
    && (forall s :: s in config ==> config[s].Table?)
    && (forall s :: s in DEFAULTS ==> s in config)
    && forall s, n :: Lookup(config, s, n) == Survives(config, s, n)
  }

  lemma SettledTables(config: Config)
    ensures forall s :: s in Settled(config) ==> Settled(config)[s].Table?
    ensures forall s :: s in Settled(config) <==> s in DEFAULTS || (s in config && config[s].Table?)
  {
    forall s
      ensures s in Kept(config) <==> s in config && config[s].Table?
      ensures s in Kept(config) ==> Kept(config)[s].Table?
    {
      KeptAt(config, s);
    }
    hide Kept;
  }

  /** Settling settles, and leaves what is whole alone. */
  lemma SettledWhole(config: Config)
    ensures Whole(Settled(config))
    ensures Whole(config) ==> Settled(config) == config
  {
    hide Settled, Lookup, Survives;
    SettledTables(config);
    forall s, n
      ensures Lookup(Settled(config), s, n) == Survives(config, s, n)
      ensures Survives(Settled(config), s, n) == Survives(config, s, n)
    {
      SettledLookup(config, s, n);
      SurvivesTwice(config, s, n);
    }
    if Whole(config) {
      SameConfig(Settled(config), config);
    }
  }

  lemma SurvivesTwice(config: Config, s: string, n: string)
    requires Lookup(Settled(config), s, n) == Survives(config, s, n)
    ensures Survives(Settled(config), s, n) == Survives(config, s, n)
  {
    hide Settled, Lookup;
    DefaultsLookup(s, n);
  }

  lemma DefaultsWhole()
    ensures Whole(DEFAULTS) && AllClean(DEFAULTS) && Loaded(None) == DEFAULTS
  {
    DefaultsBare();
    hide BareNames, AllClean, Lookup;
    forall s, n
      ensures Lookup(DEFAULTS, s, n) == Survives(DEFAULTS, s, n)
    {
      DefaultsLookup(s, n);
    }
  }

  /** A place a file leaves unset has no default either. */
  lemma LoadedUnset(file: Option<string>, section: string, name: string)
    requires Lookup(Loaded(file), section, name) == Unset
    ensures Lookup(DEFAULTS, section, name) == Unset
  {
    hide Read;
  }

  // ---- one call

  /** The key's name can stand without quotes. */
  predicate NameBare(key: string) {
    Binary(key).Some? ==> BareKey(Binary(key).value)
  }

  predicate ValueClean(key: string, raw: string) {
    Wanted(key, raw).Ok? && Wanted(key, raw).value.Text? ==> Clean(Wanted(key, raw).value.text)
  }

  ghost predicate UncleanAt(config: Config, section: string, name: string) {
    var r := Lookup(config, section, name);
    r.Is? && r.value.Text? && !Clean(r.value.text)
  }

  /** Every text of the configuration with a control character is the one the key overwrites. */
  ghost predicate OnlyUncleanAt(config: Config, key: string) {
    forall s, n :: UncleanAt(config, s, n) ==> Slot(key) == Some((s, n))
  }

  /** What the file can carry: a bare name, a clean value, and nothing unclean left beside it. */
  ghost predicate Carries(config: Config, key: string, raw: string) {
    NameBare(key) && ValueClean(key, raw) && OnlyUncleanAt(config, key)
  }

  lemma CleanIff(config: Config)
    ensures AllClean(config) <==> forall s, n :: !UncleanAt(config, s, n)
  {
    hide Clean;
    if !AllClean(config) {
      var s :| s in config && config[s].Table? && !CleanEntries(config[s].entries);
      var n :| n in config[s].entries && config[s].entries[n].Text? && !Clean(config[s].entries[n].text);
      assert UncleanAt(config, s, n);
    }
    forall s, n | UncleanAt(config, s, n)
      ensures !AllClean(config)
    {
      assert !CleanEntries(config[s].entries);
    }
  }

  lemma SectionsBare()
    ensures BareKey("library") && BareKey("publish") && BareKey(PATHS)
  {
  }

  lemma SchemaSections(key: string)
    ensures Schema(key).Some? ==> Schema(key).value.section == "library" || Schema(key).value.section == "publish"
  {
  }

  lemma SlotNames(key: string)
    requires Slot(key).Some?
    ensures BareKey(Slot(key).value.0)
    ensures BareKey(Slot(key).value.1) <==> NameBare(key)
  {
    hide BareKey, Schema, Binary;
    SectionsBare();
    SchemaSections(key);
    SchemaNames(key);
  }

  lemma SchemaNames(key: string)
    ensures Schema(key).Some? ==> BareKey(Schema(key).value.name)
  {
    LibraryBare();
    PublishBare();
    assert BareKey("registry");
    hide BareKey;
    assert "show_unavailable" in LIBRARY && "cloud" in LIBRARY && "auto_update" in LIBRARY && "search_priority" in LIBRARY;
    assert "auto_publish" in PUBLISH && "visibility" in PUBLISH && "governance" in PUBLISH;
  }

  lemma PutBare(config: Config, section: string, name: string, v: Value)
    requires BareNames(config) && BareKey(section) && v != Nested && Put(config, section, name, v).Ok?
    ensures BareNames(Put(config, section, name, v).value) <==> BareKey(name)
  {
    hide BareKey;
    var c := Put(config, section, name, v).value;
    assert section in c && c[section].Table? && name in c[section].entries;
  }

  lemma PutClean(config: Config, section: string, name: string, v: Value)
    requires Put(config, section, name, v).Ok?
    ensures AllClean(Put(config, section, name, v).value) <==>
      (v.Text? ==> Clean(v.text)) && forall s, n :: UncleanAt(config, s, n) ==> (s, n) == (section, name)
  {
    var c := Put(config, section, name, v).value;
    hide Put, AllClean, Lookup, Clean;
    CleanIff(c);
    forall s, n
      ensures UncleanAt(c, s, n) <==> if (s, n) == (section, name) then v.Text? && !Clean(v.text) else UncleanAt(config, s, n)
    {
      LookupPut(config, section, name, v, s, n);
    }
    hide UncleanAt;
    assert UncleanAt(c, section, name) <==> v.Text? && !Clean(v.text);
  }

  lemma WantedIsKept(key: string, raw: string)
    ensures Wanted(key, raw).Ok? ==> Wanted(key, raw).value != Nested
  {
  }

  lemma ChangedCarries(config: Config, key: string, raw: string)
    requires BareNames(config) && Changed(config, key, raw).Ok?
    ensures var c := Changed(config, key, raw).value;
      && (BareNames(c) <==> NameBare(key))
      && (AllClean(c) <==> ValueClean(key, raw) && OnlyUncleanAt(config, key))
  {
    hide BareNames, AllClean, BareKey, Clean, Put, Binary, Schema, UncleanAt, Wanted;
    WantedSlot(key, raw);
    SlotNames(key);
    WantedIsKept(key, raw);
    var slot, v := Slot(key).value, Wanted(key, raw).value;
    PutBare(config, slot.0, slot.1, v);
    PutClean(config, slot.0, slot.1, v);
  }

  /** A call is accepted exactly when it has a value to store and no loose value stands where its table belongs. */
  lemma Accepts(config: Config, key: string, raw: string)
    ensures Changed(config, key, raw).Ok? <==>
      Wanted(key, raw).Ok? && Slot(key).Some? && (Slot(key).value.0 in config ==> config[Slot(key).value.0].Table?)
  {
    hide Wanted, Slot;
    WantedSlot(key, raw);
  }

  lemma SavedIs(file: Option<string>, key: string, raw: string)
    ensures var changed := Changed(Loaded(file), key, raw);
      Saved(file, key, raw) == if changed.Ok? then Some(Written(changed.value)) else file
  {
    hide Changed, Loaded, Written;
  }

  lemma LoadedWritten(c: Config)
    ensures Read(Written(c)) == None ==> Loaded(Some(Written(c))) == DEFAULTS
    ensures Read(Written(c)) == Some(Kept(c)) ==> Loaded(Some(Written(c))) == Settled(c)
  {
    hide Read, Written, Merged, Kept;
  }

  lemma SettledNames(c: Config)
    requires BareNames(Settled(c))
    ensures BareNames(c)
  {
    hide *;
    SettledBareKept(c);
    KeptBare(c);
  }

  lemma SettledBareKept(c: Config)
    requires BareNames(Settled(c))
    ensures BareNames(Kept(c))
  {
    hide Kept, BareKey;
    var kept := Kept(c);
    forall s | s in kept && kept[s].Table?
      ensures BareKey(s) && BareEntries(kept[s].entries)
    {
      var t := Settled(c)[s].entries;
      assert s in Settled(c) && Settled(c)[s].Table? && BareKey(s) && BareEntries(t);
      assert forall k :: k in kept[s].entries ==> k in t && t[k] == kept[s].entries[k];
    }
  }

  lemma SettledCleanKept(c: Config)
    requires AllClean(Settled(c))
    ensures AllClean(c)
  {
    hide Clean, Settled, AllClean, Lookup;
    CleanIff(c);
    CleanIff(Settled(c));
    forall s, n | UncleanAt(c, s, n)
      ensures UncleanAt(Settled(c), s, n)
    {
      SettledLookup(c, s, n);
    }
  }

  /**
   What a file means after an accepted call is the changed configuration, settled, exactly when the name can stand
   without quotes, the value is clean and nothing unclean is left beside it. A control character is worse than a lost
   value: every setting falls back to its default.
   */
  lemma SavedLoads(file: Option<string>, key: string, raw: string)
    requires Changed(Loaded(file), key, raw).Ok?
    ensures var c, after := Changed(Loaded(file), key, raw).value, Loaded(Saved(file, key, raw));
      && (after == Settled(c) <==> Carries(Loaded(file), key, raw))
      && (NameBare(key) && !Carries(Loaded(file), key, raw) ==> after == DEFAULTS)
      && (Whole(c) ==> Settled(c) == c)
  {
    hide *;
    var c, after := Changed(Loaded(file), key, raw).value, Loaded(Saved(file, key, raw));
    SavedIs(file, key, raw);
    LoadedBare(file);
    ChangedCarries(Loaded(file), key, raw);
    CarriesIs(Loaded(file), key, raw);
    WrittenReadsBack(c);
    LoadedWritten(c);
    SettledWhole(c);
    DefaultsBare();
    LoadedBare(Saved(file, key, raw));
    if after == Settled(c) {
      SettledNames(c);
      if BareNames(c) && !AllClean(c) {
        SettledCleanKept(c);
      }
    }
  }

  lemma CarriesIs(config: Config, key: string, raw: string)
    ensures Carries(config, key, raw) <==> NameBare(key) && ValueClean(key, raw) && OnlyUncleanAt(config, key)
  {
    hide NameBare, ValueClean, OnlyUncleanAt;
  }

  /** A text with a control character in another place, once read from an escape, is as bad: any accepted call loses all. */
  lemma UncleanIsLost(file: Option<string>, key: string, raw: string, section: string, name: string)
    requires Changed(Loaded(file), key, raw).Ok? && NameBare(key)
    requires UncleanAt(Loaded(file), section, name) && Slot(key) != Some((section, name))
    ensures Loaded(Saved(file, key, raw)) == DEFAULTS
  {
    hide Loaded, Saved, Changed, NameBare, ValueClean, UncleanAt, Slot;
    SavedLoads(file, key, raw);
  }

  // ---- reading back

  lemma SchemaSlot(a: string, b: string)
    requires Schema(a).Some? && Schema(b).Some?
    ensures Schema(a).value.section != PATHS
    ensures Schema(a).value.section == Schema(b).value.section && Schema(a).value.name == Schema(b).value.name ==> a == b
  {
  }

  lemma BinaryInjective(a: string, b: string)
    requires Binary(a).Some? && Binary(a) == Binary(b)
    ensures a == b
  {
    assert a == "paths." + a[6..] && b == "paths." + b[6..];
  }

  lemma SlotInjective(a: string, b: string)
    requires Slot(a).Some? && Slot(a) == Slot(b)
    ensures a == b
  {
    hide Schema, Binary;
    if Schema(a).Some? {
      SchemaSlot(a, a);
    }
    if Schema(b).Some? {
      SchemaSlot(b, b);
    }
    if Schema(a).Some? && Schema(b).Some? {
      SchemaSlot(a, b);
    }
    if Binary(a).Some? && Binary(b).Some? {
      BinaryInjective(a, b);
    }
  }

  lemma LookupPut(config: Config, section: string, name: string, v: Value, section': string, name': string)
    requires Put(config, section, name, v).Ok?
    ensures Lookup(Put(config, section, name, v).value, section, name) == Is(v)
    ensures (section', name') != (section, name) ==>
      Lookup(Put(config, section, name, v).value, section', name') == Lookup(config, section', name')
  {
  }

  lemma RegistryIsNoPath()
    ensures Binary("publish-registry") == None && Schema("publish-registry").Some? && !Schema("publish-registry").value.flag
    ensures Schema("publish-registry").value.choices == []
  {
    assert "paths."[1] != "publish-registry"[1];
  }

  /** What a stored value reads as: itself, but an empty publish registry as the public one. */
  lemma ReportedWanted(key: string, raw: string)
    requires Wanted(key, raw).Ok?
    ensures Reported(key, Is(Wanted(key, raw).value)) == Seen(key, raw)
  {
    hide Binary, Schema, Strip, Lower;
    RegistryIsNoPath();
  }

  /** The reading a call leads to. */
  function Seen(key: string, raw: string): Reading {
    if Wanted(key, raw).Err? then UnknownSetting
    else if key == "publish-registry" && raw == "" then Is(Text(PUBLIC_PREFIX))
    else Is(Wanted(key, raw).value)
  }

  /** What a key reads as once the writer has lost what it loses. */
  function GetSurviving(config: Config, key: string): Reading {
    if Slot(key).None? then UnknownSetting
    else Reported(key, Survives(config, Slot(key).value.0, Slot(key).value.1))
  }

  lemma GetSettled(config: Config, key: string)
    ensures Get(Settled(config), key) == GetSurviving(config, key)
    ensures Whole(config) ==> GetSurviving(config, key) == Get(config, key)
  {
    hide Settled, Reported, Slot, Lookup, Survives;
    if Slot(key).Some? {
      SettledLookup(config, Slot(key).value.0, Slot(key).value.1);
      assert Whole(config) ==> Lookup(config, Slot(key).value.0, Slot(key).value.1) == Survives(config, Slot(key).value.0, Slot(key).value.1);
    }
  }

  /** A setting the file holds as a plain value, or not at all, survives. */
  lemma PlainSurvives(file: Option<string>, key: string)
    requires Slot(key).Some? ==>
      var r := Lookup(Loaded(file), Slot(key).value.0, Slot(key).value.1); r != Crash && r != Is(Nested)
    ensures GetSurviving(Loaded(file), key) == Get(Loaded(file), key)
  {
    hide Loaded, Reported, Slot;
    if Slot(key).Some? {
      var slot := Slot(key).value;
      if Lookup(Loaded(file), slot.0, slot.1) == Unset {
        LoadedUnset(file, slot.0, slot.1);
      }
    }
  }

  lemma SurvivesChanged(config: Config, key: string, raw: string, other: string)
    requires Changed(config, key, raw).Ok?
    ensures GetSurviving(Changed(config, key, raw).value, key) == Seen(key, raw)
    ensures other != key ==> GetSurviving(Changed(config, key, raw).value, other) == GetSurviving(config, other)
  {
    hide Slot, Lookup, Put, Wanted, Reported, Seen;
    WantedSlot(key, raw);
    WantedIsKept(key, raw);
    ReportedWanted(key, raw);
    var slot, v := Slot(key).value, Wanted(key, raw).value;
    if Slot(other).Some? && Slot(other) != Slot(key) {
      LookupPut(config, slot.0, slot.1, v, Slot(other).value.0, Slot(other).value.1);
    } else {
      LookupPut(config, slot.0, slot.1, v, slot.0, slot.1);
      if Slot(other).Some? {
        SlotInjective(key, other);
      }
    }
  }

  /**
   Stored and read back through the file: the new value, and every other key reads as before, but for loose values and
   nested tables, which the writer drops.
   */
  lemma SetThenGet(file: Option<string>, key: string, raw: string, other: string)
    requires Changed(Loaded(file), key, raw).Ok? && Carries(Loaded(file), key, raw)
    ensures var after := Loaded(Saved(file, key, raw));
      && Get(after, key) == Seen(key, raw)
      && (other != key ==> Get(after, other) == GetSurviving(Loaded(file), other))
      && Whole(after)
  {
    hide *;
    var c := Changed(Loaded(file), key, raw).value;
    SavedLoads(file, key, raw);
    SettledWhole(c);
    SurvivesChanged(Loaded(file), key, raw, other);
    GetSettled(c, key);
    GetSettled(c, other);
  }

  lemma PathHeld(config: Config, key: string, path: string)
    requires Binary(key).Some? && Get(config, key) == Is(Text(path)) && BareNames(config)
    ensures NameBare(key) && config != DEFAULTS && Slot(key).Some? && PATHS in config && config[PATHS].Table?
  {
    hide Binary, BareKey;
    assert PATHS !in DEFAULTS;
  }

  lemma WantedPath(key: string, raw: string)
    requires Binary(key).Some? && Strip(raw) != ""
    ensures Wanted(key, raw) == Ok(Text(Strip(raw))) && Seen(key, raw) == Is(Text(Strip(raw)))
    ensures ValueClean(key, raw) <==> Clean(Strip(raw))
    ensures Slot(key).Some? && Slot(key).value.0 == PATHS
  {
    hide Strip, BareKey, Clean, Binary, Schema;
    RegistryIsNoPath();
  }

  /**
   A path setting reads back exactly when no loose value is called paths, the binary's name can stand without quotes, and
   neither the path nor another text of the file has a control character.
   */
  lemma PathReadsBack(file: Option<string>, key: string, raw: string)
    requires Binary(key).Some? && Strip(raw) != ""
    ensures Get(Loaded(Saved(file, key, raw)), key) == Is(Text(Strip(raw))) <==>
      (PATHS in Loaded(file) ==> Loaded(file)[PATHS].Table?) && Carries(Loaded(file), key, raw)
  {
    hide *;
    var after := Loaded(Saved(file, key, raw));
    WantedPath(key, raw);
    Accepts(Loaded(file), key, raw);
    SavedIs(file, key, raw);
    if Changed(Loaded(file), key, raw).Ok? {
      SavedLoads(file, key, raw);
      if Carries(Loaded(file), key, raw) {
        SetThenGet(file, key, raw, key);
      }
    }
    if Get(after, key) == Is(Text(Strip(raw))) {
      LoadedBare(Saved(file, key, raw));
      PathHeld(after, key, Strip(raw));
    }
  }

  // ---- runs

  datatype Call = Call(key: string, raw: string)

  function RunFile(file: Option<string>, calls: seq<Call>): Option<string> {
    if calls == [] then file
    else
      var last := calls[|calls| - 1];
      Saved(RunFile(file, calls[..|calls| - 1]), last.key, last.raw)
  }

  /** The same run on settings held in memory: a refused call changes nothing, an accepted one settles. */
  function RunMemory(config: Config, calls: seq<Call>): Config {
    if calls == [] then config
    else
      var last := calls[|calls| - 1];
      var before := RunMemory(config, calls[..|calls| - 1]);
      var changed := Changed(before, last.key, last.raw);
      if changed.Ok? then Settled(changed.value) else before
  }

  /** The value of the last accepted call for a key. */
  function LastSet(config: Config, calls: seq<Call>, key: string): Option<string> {
    if calls == [] then None
    else
      var last, front := calls[|calls| - 1], calls[..|calls| - 1];
      if last.key == key && Changed(RunMemory(config, front), last.key, last.raw).Ok? then Some(last.raw)
      else LastSet(config, front, key)
  }

  predicate AnyAccepted(config: Config, calls: seq<Call>) {
    calls != [] &&
      var last, front := calls[|calls| - 1], calls[..|calls| - 1];
      AnyAccepted(config, front) || Changed(RunMemory(config, front), last.key, last.raw).Ok?
  }

  /** Bare names and clean values, as far as there is a value to store. */
  predicate AllStorable(calls: seq<Call>) {
    forall i :: 0 <= i < |calls| && Wanted(calls[i].key, calls[i].raw).Ok? ==>
      NameBare(calls[i].key) && ValueClean(calls[i].key, calls[i].raw)
  }

  /** One call the file can carry, refused or not, on a file of clean texts. */
  lemma CallStep(file: Option<string>, call: Call)
    requires AllClean(Loaded(file)) && AllStorable([call])
    ensures var config, changed := Loaded(file), Changed(Loaded(file), call.key, call.raw);
      && (changed.Ok? ==> Carries(config, call.key, call.raw))
      && Loaded(Saved(file, call.key, call.raw)) == (if changed.Ok? then Settled(changed.value) else config)
      && AllClean(Loaded(Saved(file, call.key, call.raw)))
  {
    var changed := Changed(Loaded(file), call.key, call.raw);
    OneStorable(call);
    CleanCarries(Loaded(file), call.key, call.raw);
    Accepts(Loaded(file), call.key, call.raw);
    hide *;
    SavedIs(file, call.key, call.raw);
    if changed.Ok? {
      SavedLoads(file, call.key, call.raw);
      LoadedBare(file);
      ChangedCarries(Loaded(file), call.key, call.raw);
      CarriesIs(Loaded(file), call.key, call.raw);
      SettledClean(changed.value);
    }
  }

  lemma OneStorable(call: Call)
    requires AllStorable([call])
    ensures Wanted(call.key, call.raw).Ok? ==> NameBare(call.key) && ValueClean(call.key, call.raw)
  {
    assert [call][0] == call;
  }

  lemma CleanCarries(config: Config, key: string, raw: string)
    requires AllClean(config)
    ensures NameBare(key) && ValueClean(key, raw) ==> Carries(config, key, raw)
  {
    hide AllClean, UncleanAt, NameBare, ValueClean;
    CleanIff(config);
  }

  lemma SettledClean(c: Config)
    requires AllClean(c)
    ensures AllClean(Settled(c))
  {
    DefaultsWhole();
    hide Clean, Settled, AllClean, Lookup;
    CleanIff(c);
    CleanIff(DEFAULTS);
    CleanIff(Settled(c));
    forall s, n
      ensures !UncleanAt(Settled(c), s, n)
    {
      SettledLookup(c, s, n);
      assert !UncleanAt(c, s, n) && !UncleanAt(DEFAULTS, s, n);
    }
  }

  /** Over any run of calls the file can carry, the file means what the settings in memory would be. */
  lemma {:induction false} RunKeepsSettings(file: Option<string>, calls: seq<Call>)
    requires AllClean(Loaded(file)) && AllStorable(calls)
    ensures Loaded(RunFile(file, calls)) == RunMemory(Loaded(file), calls) && AllClean(Loaded(RunFile(file, calls)))
    ensures AnyAccepted(Loaded(file), calls) ==> Whole(Loaded(RunFile(file, calls)))
  {
    hide Loaded, Saved, Changed, NameBare, ValueClean, Wanted, Whole, AllClean, Settled, Carries;
    if calls != [] {
      var last, front := calls[|calls| - 1], calls[..|calls| - 1];
      RunKeepsSettings(file, front);
      CallStep(RunFile(file, front), last);
      var changed := Changed(Loaded(RunFile(file, front)), last.key, last.raw);
      if changed.Ok? {
        SettledWhole(changed.value);
      }
    }
  }

  /** After any such run a key reads as its last accepted call left it; else as what survives of the start, or the start itself. */
  lemma {:induction false} RunReadsLast(file: Option<string>, calls: seq<Call>, key: string)
    requires AllClean(Loaded(file)) && AllStorable(calls)
    ensures Get(Loaded(RunFile(file, calls)), key) ==
      var config := Loaded(file);
      var last := LastSet(config, calls, key);
      if last.Some? then Seen(key, last.value)
      else if AnyAccepted(config, calls) then GetSurviving(config, key)
      else Get(config, key)
  {
    hide Loaded, Saved, Changed, NameBare, ValueClean, Wanted, Whole, AllClean, Settled, Carries, Get, GetSurviving, Seen;
    if calls != [] {
      var last, front := calls[|calls| - 1], calls[..|calls| - 1];
      var before := RunFile(file, front);
      RunReadsLast(file, front, key);
      RunKeepsSettings(file, front);
      CallStep(before, last);
      if Changed(Loaded(before), last.key, last.raw).Ok? {
        SetThenGet(before, last.key, last.raw, key);
        GetSettled(Loaded(before), key);
        if !AnyAccepted(Loaded(file), front) {
          NoneAccepted(file, front, key);
        }
      }
    }
  }

  lemma {:induction false} NoneAccepted(file: Option<string>, calls: seq<Call>, key: string)
    requires AllClean(Loaded(file)) && AllStorable(calls) && !AnyAccepted(Loaded(file), calls)
    ensures Loaded(RunFile(file, calls)) == Loaded(file) && LastSet(Loaded(file), calls, key) == None
  {
    hide Loaded, Saved, Changed, NameBare, ValueClean, Wanted, Whole, AllClean, Settled, Carries;
    if calls != [] {
      var last, front := calls[|calls| - 1], calls[..|calls| - 1];
      NoneAccepted(file, front, key);
      RunKeepsSettings(file, front);
      CallStep(RunFile(file, front), last);
    }
  }
}
