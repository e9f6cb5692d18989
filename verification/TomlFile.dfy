/**
 The configuration file as a whole: what the program writes of a configuration, and what reads back. A top-level
 entry of a configuration is a table or a loose value; the writer keeps the tables and, in them, all but nested tables.
 */
module TomlFile {
  import opened Outcomes
  import opened Texts
  import opened Ordering
  import opened TomlLines
  import opened Sequences

  type Entries = map<string, Value>

  datatype Section = Table(entries: Entries) | Loose(value: Value)

  type Config = map<string, Section>

  // ---- writing

  function WriteEntries(keys: seq<string>, t: Entries): seq<string>
    requires forall k :: k in keys ==> k in t
  {
    if keys == [] then []
    else (if t[keys[0]] == Nested then [] else [WritePair(keys[0], t[keys[0]])]) + WriteEntries(keys[1..], t)
  }

  function WriteSection(name: string, section: Section): seq<string> {
    match section
    case Table(t) => [WriteHeader(name)] + WriteEntries(Sorted(t.Keys), t) + [""]
    case Loose(_) => []
  }

  function WriteSections(names: seq<string>, config: Config): seq<string>
    requires forall n :: n in names ==> n in config
  {
    if names == [] then [] else WriteSection(names[0], config[names[0]]) + WriteSections(names[1..], config)
  }

  function Written(config: Config): string {
    Join(WriteSections(Sorted(config.Keys), config), '\n')
  }

  lemma EntriesStep(keys: seq<string>, t: Entries, j: nat)
    requires j < |keys| && forall k :: k in keys ==> k in t
    ensures WriteEntries(keys[j..], t) ==
      (if t[keys[j]] == Nested then [] else [WritePair(keys[j], t[keys[j]])]) + WriteEntries(keys[j + 1..], t)
  {
    assert keys[j..][1..] == keys[j + 1..];
  }

  lemma SectionsStep(names: seq<string>, config: Config, i: nat)
    requires i < |names| && forall n :: n in names ==> n in config
    ensures WriteSections(names[i..], config) == WriteSection(names[i], config[names[i]]) + WriteSections(names[i + 1..], config)
  {
    assert names[i..][1..] == names[i + 1..];
  }

  /** The lines of one table's entries, in the order of their keys. */
  method TableLines(t: Entries) returns (lines: seq<string>)
    ensures lines == WriteEntries(Sorted(t.Keys), t)
  {
    hide WritePair, WriteEntries;
    lines := [];
    var keys := Sorted(t.Keys);
    for j := 0 to |keys|
      invariant lines + WriteEntries(keys[j..], t) == WriteEntries(keys, t)
    {
      EntriesStep(keys, t, j);
      if t[keys[j]] != Nested {
        Regroup(lines, [WritePair(keys[j], t[keys[j]])], WriteEntries(keys[j + 1..], t));
        lines := lines + [WritePair(keys[j], t[keys[j]])];
      }
    }
    assert WriteEntries(keys[|keys|..], t) == [] by {
      EntriesEnd(keys, t);
    }
  }

  lemma EntriesEnd(keys: seq<string>, t: Entries)
    ensures WriteEntries(keys[|keys|..], t) == []
  {
  }

  lemma SectionsEnd(names: seq<string>, config: Config)
    ensures WriteSections(names[|names|..], config) == []
  {
  }

  method SectionLines(name: string, section: Section) returns (lines: seq<string>)
    ensures lines == WriteSection(name, section)
  {
    hide WriteHeader, WriteEntries;
    match section
    case Loose(_) =>
      lines := [];
    case Table(t) =>
      lines := TableLines(t);
      lines := [WriteHeader(name)] + lines + [""];
  }

  method Write(config: Config) returns (text: string)
    ensures text == Written(config)
  {
    hide WriteSections, WriteSection, Join;
    var lines: seq<string> := [];
    var names := Sorted(config.Keys);
    for i := 0 to |names|
      invariant lines + WriteSections(names[i..], config) == WriteSections(names, config)
    {
      SectionsStep(names, config, i);
      var section := SectionLines(names[i], config[names[i]]);
      Regroup(lines, section, WriteSections(names[i + 1..], config));
      lines := lines + section;
    }
    SectionsEnd(names, config);
    assert lines == WriteSections(names, config);
    text := Join(lines, '\n');
  }

  // ---- reading

  /** Dotted keys are paths; at is the table being filled. */
  datatype Document = Document(loose: map<seq<string>, Value>, tables: map<string, map<seq<string>, Value>>, at: Option<string>) {
    predicate Ready() {
      at.Some? ==> at.value in tables
    }
  }

  /** The path, or a path through it, is taken. */
  predicate Clashes(path: seq<string>, have: map<seq<string>, Value>) {
    exists p :: p in have && (path <= p || p <= path)
  }

  function Place(line: Line, doc: Document): (r: Option<Document>)
    requires doc.Ready()
    ensures r.Some? ==> r.value.Ready()
  {
    match line
    case Empty => Some(doc)
    case Header(name) =>
      if name in doc.tables || Clashes([name], doc.loose) then None
      else Some(Document(doc.loose, doc.tables[name := map[]], Some(name)))
    case Pair(path, value) =>
      var have := if doc.at.None? then doc.loose else doc.tables[doc.at.value];
      if Clashes(path, have) then None
      else if doc.at.None? then Some(Document(have[path := value], doc.tables, None))
      else Some(Document(doc.loose, doc.tables[doc.at.value := have[path := value]], doc.at))
  }

  function ReadLines(lines: seq<string>, doc: Document): Option<Document>
    requires doc.Ready()
    decreases |lines|
  {
    if lines == [] then Some(doc)
    else
      var line := ReadLine(lines[0]);
      if line.None? then None
      else
        var next := Place(line.value, doc);
        if next.None? then None else ReadLines(lines[1..], next.value)
  }

  /** No path runs through another. */
  ghost predicate Apart(have: map<seq<string>, Value>) {
    forall p, q :: p in have && q in have && p <= q ==> p == q
  }

  ghost predicate AllApart(doc: Document) {
    Apart(doc.loose) && forall s :: s in doc.tables ==> Apart(doc.tables[s])
  }

  /** A key is read once: a file that repeats one, or goes through one, does not read; nor does one that repeats a table. */
  lemma {:induction false} KeysOnce(lines: seq<string>, doc: Document)
    requires doc.Ready() && AllApart(doc) && ReadLines(lines, doc).Some?
    ensures AllApart(ReadLines(lines, doc).value)
    decreases |lines|
  {
    if lines != [] {
      PlacedOnce(ReadLine(lines[0]).value, doc);
      KeysOnce(lines[1..], Place(ReadLine(lines[0]).value, doc).value);
    }
  }

  lemma PlacedOnce(line: Line, doc: Document)
    requires doc.Ready() && AllApart(doc)
    ensures Place(line, doc).Some? ==> AllApart(Place(line, doc).value)
    ensures line.Header? ==>
      (Place(line, doc).None? <==> line.name in doc.tables || exists p :: p in doc.loose && (p == [] || p[0] == line.name))
    ensures line.Pair? ==>
      var have := if doc.at.None? then doc.loose else doc.tables[doc.at.value];
      Place(line, doc).None? <==> exists p :: p in have && (p <= line.path || line.path <= p)
  {
    if line.Header? {
      forall p | p in doc.loose ensures [line.name] <= p || p <= [line.name] <==> p == [] || p[0] == line.name {
        assert p <= [line.name] && p != [] ==> p[0] == line.name;
        assert p != [] && p[0] == line.name ==> p == [line.name] + p[1..];
      }
    }
  }

  /** A table in memory: a dotted key shows as a nested table under its first part. */
  function Shown(have: map<seq<string>, Value>): Entries {
    map k | k in (set p | p in have && p != [] :: p[0]) :: if [k] in have then have[[k]] else Nested
  }

  function InMemory(doc: Document): Config {
    var loose := Shown(doc.loose);
    map s | s in doc.tables.Keys + loose.Keys :: if s in doc.tables then Table(Shown(doc.tables[s])) else Loose(loose[s])
  }

  function Read(text: string): Option<Config> {
    var doc := ReadLines(Split(text, '\n'), Document(map[], map[], None));
    if doc.None? then None else Some(InMemory(doc.value))
  }
}
