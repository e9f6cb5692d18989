/** What the writer wrote reads back as what it kept, exactly when every text is free of control characters. */
module TomlRoundTrip {
  import opened Outcomes
  import opened Texts
  import opened Ordering
  import opened TomlLines
  import opened TomlFile
  import opened Sequences

  ghost predicate BareEntries(t: Entries) {
    forall k :: k in t && t[k] != Nested ==> BareKey(k)
  }

  ghost predicate CleanEntries(t: Entries) {
    forall k :: k in t && t[k].Text? ==> Clean(t[k].text)
  }

  /** Every name the writer writes can stand without quotes. */
  ghost predicate BareNames(config: Config) {
    forall s :: s in config && config[s].Table? ==> BareKey(s) && BareEntries(config[s].entries)
  }

  ghost predicate AllClean(config: Config) {
    forall s :: s in config && config[s].Table? ==> CleanEntries(config[s].entries)
  }

  function KeptEntries(t: Entries): Entries {
    map k | k in t && t[k] != Nested :: t[k]
  }

  /** The tables, without the tables nested in them. */
  function Kept(config: Config): Config {
    map s | s in config && config[s].Table? :: Table(KeptEntries(config[s].entries))
  }

  // ---- clean texts

  /** One entry read into the table being filled. */
  ghost function Noted(key: string, t: Entries, have: map<seq<string>, Value>): map<seq<string>, Value>
    requires key in t
  {
    if t[key] == Nested then have else have[[key] := t[key]]
  }

  ghost function Filled(keys: seq<string>, t: Entries, have: map<seq<string>, Value>): map<seq<string>, Value>
    requires forall k :: k in keys ==> k in t
  {
    if keys == [] then have
    else Filled(keys[1..], t, Noted(keys[0], t, have))
  }

  /** have holds single keys only, none of those to come. */
  ghost predicate Unused(keys: seq<string>, have: map<seq<string>, Value>) {
    forall p :: p in have ==> |p| == 1 && p[0] !in keys
  }

  /** The document with the table being filled replaced. */
  ghost function With(doc: Document, have: map<seq<string>, Value>): (r: Document)
    requires doc.Ready() && doc.at.Some?
    ensures r.Ready() && r.at == doc.at && r.loose == doc.loose && r.tables[r.at.value] == have
  {
    Document(doc.loose, doc.tables[doc.at.value := have], doc.at)
  }

  lemma WithWith(doc: Document, a: map<seq<string>, Value>, b: map<seq<string>, Value>)
    requires doc.Ready() && doc.at.Some?
    ensures With(With(doc, a), b) == With(doc, b)
    ensures With(doc, doc.tables[doc.at.value]) == doc
  {
  }

  lemma PairPlaces(key: string, v: Value, doc: Document)
    requires doc.Ready() && doc.at.Some? && Unused([key], doc.tables[doc.at.value])
    ensures Place(Pair([key], v), doc) == Some(With(doc, doc.tables[doc.at.value][[key] := v]))
  {
    var have := doc.tables[doc.at.value];
    forall p | p in have
      ensures !([key] <= p) && !(p <= [key])
    {
      assert |p| == 1 && p[0] != key;
    }
  }

  lemma StillUnused(keys: seq<string>, v: Value, have: map<seq<string>, Value>)
    requires keys != [] && InOrder(keys) && Unused(keys, have)
    ensures InOrder(keys[1..]) && Unused(keys[1..], have) && Unused(keys[1..], have[[keys[0]] := v])
    ensures Unused([keys[0]], have)
  {
    assert keys[0] !in keys[1..];
  }

  lemma ReadOne(line: string, lines: seq<string>, doc: Document)
    requires doc.Ready() && ReadLine(line).Some? && Place(ReadLine(line).value, doc).Some?
    ensures ReadLines([line] + lines, doc) == ReadLines(lines, Place(ReadLine(line).value, doc).value)
  {
    assert ([line] + lines)[1..] == lines;
  }

  lemma WrittenReads(key: string, t: Entries)
    requires key in t && t[key] != Nested && BareEntries(t) && CleanEntries(t)
    ensures ReadLine(WritePair(key, t[key])) == Some(Pair([key], t[key]))
    ensures Plain(WritePair(key, t[key]), '\n')
  {
    PairReads(key, t[key]);
    WrittenPlain(key, t[key]);
  }

  lemma EntriesUnroll(keys: seq<string>, t: Entries, more: seq<string>)
    requires keys != [] && forall k :: k in keys ==> k in t
    ensures t[keys[0]] == Nested ==> WriteEntries(keys, t) + more == WriteEntries(keys[1..], t) + more
    ensures t[keys[0]] != Nested ==>
      WriteEntries(keys, t) + more == [WritePair(keys[0], t[keys[0]])] + (WriteEntries(keys[1..], t) + more)
  {
    var front: seq<string> := if t[keys[0]] == Nested then [] else [WritePair(keys[0], t[keys[0]])];
    var rest := WriteEntries(keys[1..], t);
    assert WriteEntries(keys, t) == front + rest;
    hide WriteEntries, WritePair;
    Regroup(front, rest, more);
    EmptyFront(rest + more);
  }

  lemma EmptyFront(a: seq<string>)
    ensures [] + a == a
  {
  }

  lemma EntryRead(keys: seq<string>, t: Entries, more: seq<string>, doc: Document)
    requires keys != [] && forall k :: k in keys ==> k in t
    requires InOrder(keys) && BareEntries(t) && CleanEntries(t)
    requires doc.Ready() && doc.at.Some? && Unused(keys, doc.tables[doc.at.value])
    ensures var next := With(doc, Noted(keys[0], t, doc.tables[doc.at.value]));
      && ReadLines(WriteEntries(keys, t) + more, doc) == ReadLines(WriteEntries(keys[1..], t) + more, next)
      && InOrder(keys[1..]) && Unused(keys[1..], next.tables[next.at.value])
  {
    hide Unused, InOrder, With, ReadLines, ReadLine, Place, WriteEntries, WritePair, BareEntries, CleanEntries;
    var key, have := keys[0], doc.tables[doc.at.value];
    EntriesUnroll(keys, t, more);
    StillUnused(keys, t[key], have);
    WithWith(doc, have, have);
    if t[key] != Nested {
      WrittenReads(key, t);
      PairPlaces(key, t[key], doc);
      ReadOne(WritePair(key, t[key]), WriteEntries(keys[1..], t) + more, doc);
    }
  }

  lemma {:induction false} EntriesRead(keys: seq<string>, t: Entries, more: seq<string>, doc: Document)
    requires forall k :: k in keys ==> k in t
    requires InOrder(keys) && BareEntries(t) && CleanEntries(t)
    requires doc.Ready() && doc.at.Some? && Unused(keys, doc.tables[doc.at.value])
    ensures ReadLines(WriteEntries(keys, t) + more, doc) == ReadLines(more, With(doc, Filled(keys, t, doc.tables[doc.at.value])))
  {
    var have := doc.tables[doc.at.value];
    hide WritePair, ReadLines, BareEntries, CleanEntries, Unused, InOrder, With, Noted;
    if keys == [] {
      assert WriteEntries(keys, t) + more == more;
      WithWith(doc, have, have);
    } else {
      EntryRead(keys, t, more, doc);
      var noted := Noted(keys[0], t, have);
      EntriesRead(keys[1..], t, more, With(doc, noted));
      WithWith(doc, noted, Filled(keys, t, have));
    }
  }

  lemma HeaderPlaces(name: string, doc: Document)
    requires doc.Ready() && doc.loose == map[] && name !in doc.tables
    ensures Place(Header(name), doc) == Some(Document(map[], doc.tables[name := map[]], Some(name)))
  {
  }

  lemma EmptyReads(doc: Document)
    requires doc.Ready()
    ensures ReadLine("") == Some(Empty) && Place(Empty, doc) == Some(doc)
  {
  }

  lemma SectionRead(name: string, t: Entries, more: seq<string>, doc: Document)
    requires doc.Ready() && doc.loose == map[] && name !in doc.tables
    requires BareKey(name) && BareEntries(t) && CleanEntries(t)
    ensures ReadLines(WriteSection(name, Table(t)) + more, doc) ==
      ReadLines(more, Document(map[], doc.tables[name := Filled(Sorted(t.Keys), t, map[])], Some(name)))
  {
    hide WriteHeader, WriteEntries, ReadLine, ReadLines, Place, Filled, BareKey, BareEntries, CleanEntries;
    var keys := Sorted(t.Keys);
    var begun := Document(map[], doc.tables[name := map[]], Some(name));
    var full := With(begun, Filled(keys, t, map[]));
    Regroup4([WriteHeader(name)], WriteEntries(keys, t), [""], more);
    HeaderReads(name);
    HeaderPlaces(name, doc);
    ReadOne(WriteHeader(name), WriteEntries(keys, t) + ([""] + more), doc);
    EntriesRead(keys, t, [""] + more, begun);
    EmptyReads(full);
    ReadOne("", more, full);
    assert doc.tables[name := map[]][name := Filled(keys, t, map[])] == doc.tables[name := Filled(keys, t, map[])];
  }

  ghost function Tabled(names: seq<string>, config: Config, tables: map<string, map<seq<string>, Value>>): map<string, map<seq<string>, Value>>
    requires forall n :: n in names ==> n in config
  {
    if names == [] then tables
    else
      match config[names[0]]
      case Table(t) => Tabled(names[1..], config, tables[names[0] := Filled(Sorted(t.Keys), t, map[])])
      case Loose(_) => Tabled(names[1..], config, tables)
  }

  lemma SectionsUnroll(names: seq<string>, config: Config)
    requires names != [] && forall n :: n in names ==> n in config
    ensures WriteSections(names, config) == WriteSection(names[0], config[names[0]]) + WriteSections(names[1..], config)
    ensures config[names[0]].Loose? ==> WriteSections(names, config) == WriteSections(names[1..], config)
  {
    EmptyFront(WriteSections(names[1..], config));
  }

  lemma {:induction false} SectionsRead(names: seq<string>, config: Config, doc: Document)
    requires forall n :: n in names ==> n in config
    requires InOrder(names) && BareNames(config) && AllClean(config)
    requires doc.Ready() && doc.loose == map[] && forall n :: n in names ==> n !in doc.tables
    ensures var r := ReadLines(WriteSections(names, config), doc);
      r.Some? && r.value.loose == map[] && r.value.tables == Tabled(names, config, doc.tables)
  {
    hide WriteSection, BareKey, BareEntries, CleanEntries, Filled;
    if names != [] {
      SectionsUnroll(names, config);
      hide WriteSections, ReadLines;
      assert names[0] !in names[1..];
      if config[names[0]].Table? {
        var t := config[names[0]].entries;
        SectionRead(names[0], t, WriteSections(names[1..], config), doc);
        SectionsRead(names[1..], config, Document(map[], doc.tables[names[0] := Filled(Sorted(t.Keys), t, map[])], Some(names[0])));
      } else {
        SectionsRead(names[1..], config, doc);
      }
    }
  }

  lemma {:induction false} FilledIs(keys: seq<string>, t: Entries, have: map<seq<string>, Value>, p: seq<string>)
    requires InOrder(keys) && Unused(keys, have) && forall k :: k in keys ==> k in t
    ensures p in Filled(keys, t, have) <==> p in have || (|p| == 1 && p[0] in keys && t[p[0]] != Nested)
    ensures p in Filled(keys, t, have) ==> Filled(keys, t, have)[p] == if p in have then have[p] else t[p[0]]
  {
    if keys != [] {
      StillUnused(keys, t[keys[0]], have);
      FilledIs(keys[1..], t, Noted(keys[0], t, have), p);
      assert |p| == 1 && p[0] == keys[0] ==> p == [keys[0]];
      assert p in have ==> p != [keys[0]];
    }
  }

  lemma ShownAt(have: map<seq<string>, Value>, k: string)
    requires forall p :: p in have ==> |p| == 1
    ensures k in Shown(have) <==> [k] in have
    ensures [k] in have ==> Shown(have)[k] == have[[k]]
  {
    assert [k] != [] && [k][0] == k;
    assert [k] in have ==> k in Shown(have);
    if k in Shown(have) {
      var p :| p in have && p != [] && p[0] == k;
      assert p == [k];
    }
  }

  lemma ShownFilled(t: Entries)
    ensures Shown(Filled(Sorted(t.Keys), t, map[])) == KeptEntries(t)
  {
    var keys := Sorted(t.Keys);
    var have := Filled(keys, t, map[]);
    hide Filled, Shown;
    forall p | p in have
      ensures |p| == 1
    {
      FilledIs(keys, t, map[], p);
    }
    forall k
      ensures k in Shown(have) <==> k in KeptEntries(t)
      ensures k in KeptEntries(t) ==> Shown(have)[k] == t[k] == KeptEntries(t)[k]
    {
      ShownAt(have, k);
      FilledIs(keys, t, map[], [k]);
    }
    hide Sorted, KeptEntries;
  }

  lemma {:induction false} TabledIs(names: seq<string>, config: Config, tables: map<string, map<seq<string>, Value>>, s: string)
    requires InOrder(names) && forall n :: n in names ==> n in config && n !in tables
    ensures s in Tabled(names, config, tables) <==> s in tables || (s in names && config[s].Table?)
    ensures s in tables ==> Tabled(names, config, tables)[s] == tables[s]
    ensures s in names && config[s].Table? ==>
      Tabled(names, config, tables)[s] == Filled(Sorted(config[s].entries.Keys), config[s].entries, map[])
  {
    hide Filled;
    if names != [] {
      assert names[0] !in names[1..];
      match config[names[0]]
      case Table(t) => TabledIs(names[1..], config, tables[names[0] := Filled(Sorted(t.Keys), t, map[])], s);
      case Loose(_) => TabledIs(names[1..], config, tables, s);
    }
  }

  lemma {:induction false} EntriesPlain(keys: seq<string>, t: Entries)
    requires (forall k :: k in keys ==> k in t) && BareEntries(t) && CleanEntries(t)
    ensures AllPlain(WriteEntries(keys, t), '\n')
  {
    hide WritePair, Plain, BareEntries, CleanEntries;
    if keys != [] {
      EntriesPlain(keys[1..], t);
      if t[keys[0]] != Nested {
        WrittenReads(keys[0], t);
      }
    }
  }

  lemma PlainConcat(a: seq<string>, b: seq<string>, mark: char)
    requires AllPlain(a, mark) && AllPlain(b, mark)
    ensures AllPlain(a + b, mark)
  {
    hide Plain;
  }

  lemma SectionPlain(name: string, section: Section)
    requires section.Table? ==> BareKey(name) && BareEntries(section.entries) && CleanEntries(section.entries)
    ensures AllPlain(WriteSection(name, section), '\n')
  {
    if section.Table? {
      var t := section.entries;
      EntriesPlain(Sorted(t.Keys), t);
      WrittenPlain(name, Flag(true));
      hide WriteEntries;
      PlainConcat([WriteHeader(name)], WriteEntries(Sorted(t.Keys), t), '\n');
      PlainConcat([WriteHeader(name)] + WriteEntries(Sorted(t.Keys), t), [""], '\n');
    }
  }

  lemma {:induction false} SectionsPlain(names: seq<string>, config: Config)
    requires (forall n :: n in names ==> n in config) && BareNames(config) && AllClean(config)
    ensures AllPlain(WriteSections(names, config), '\n')
  {
    hide WriteSection, AllPlain, BareKey, BareEntries, CleanEntries;
    if names == [] {
      NonePlain('\n');
    } else {
      SectionsPlain(names[1..], config);
      SectionPlain(names[0], config[names[0]]);
      PlainConcat(WriteSection(names[0], config[names[0]]), WriteSections(names[1..], config), '\n');
    }
  }

  lemma NonePlain(mark: char)
    ensures AllPlain([], mark)
  {
  }

  /** The lines of a text joined from lines; a text of no lines has one empty line, which reads as nothing. */
  lemma JoinedReads(lines: seq<string>, doc: Document)
    requires AllPlain(lines, '\n') && doc.Ready()
    ensures ReadLines(Split(Join(lines, '\n'), '\n'), doc) == ReadLines(lines, doc)
  {
    if lines == [] {
      EmptyReads(doc);
      ReadOne("", [], doc);
      assert [""] + [] == [""];
    } else {
      SplitJoin(lines, '\n');
    }
  }

  const BLANK := Document(map[], map[], None)

  lemma InMemoryAt(doc: Document, s: string)
    requires doc.loose == map[]
    ensures s in InMemory(doc) <==> s in doc.tables
    ensures s in doc.tables ==> InMemory(doc)[s] == Table(Shown(doc.tables[s]))
  {
    NothingShown();
    hide Shown;
  }

  lemma KeptAt(config: Config, s: string)
    ensures s in Kept(config) <==> s in config && config[s].Table?
    ensures s in Kept(config) ==> Kept(config)[s] == Table(KeptEntries(config[s].entries))
  {
    hide KeptEntries;
  }

  lemma TabledAt(config: Config, doc: Document, s: string)
    requires doc.loose == map[] && doc.tables == Tabled(Sorted(config.Keys), config, map[])
    ensures s in InMemory(doc) <==> s in Kept(config)
    ensures s in Kept(config) ==> InMemory(doc)[s] == Kept(config)[s]
  {
    hide *;
    InMemoryAt(doc, s);
    KeptAt(config, s);
    TabledIs(Sorted(config.Keys), config, map[], s);
    if s in Kept(config) {
      ShownFilled(config[s].entries);
    }
  }

  lemma TabledInMemory(config: Config, doc: Document)
    requires doc.loose == map[] && doc.tables == Tabled(Sorted(config.Keys), config, map[])
    ensures InMemory(doc) == Kept(config)
  {
    hide *;
    forall s
      ensures s in InMemory(doc) <==> s in Kept(config)
      ensures s in Kept(config) ==> InMemory(doc)[s] == Kept(config)[s]
    {
      TabledAt(config, doc, s);
    }
  }

  lemma NothingShown()
    ensures Shown(map[]) == map[]
  {
  }

  lemma CleanReads(config: Config)
    requires BareNames(config) && AllClean(config)
    ensures Read(Written(config)) == Some(Kept(config))
  {
    hide Join, Split, WriteSections, ReadLines, BareNames, AllClean, InMemory, Kept, Tabled, AllPlain;
    var names := Sorted(config.Keys);
    SectionsPlain(names, config);
    JoinedReads(WriteSections(names, config), BLANK);
    SectionsRead(names, config, BLANK);
    TabledInMemory(config, ReadLines(WriteSections(names, config), BLANK).value);
  }

  // ---- a text with a control character

  lemma {:induction false} LineFails(lines: seq<string>, i: nat, doc: Document)
    requires i < |lines| && ReadLine(lines[i]) == None && doc.Ready()
    ensures ReadLines(lines, doc) == None
    decreases |lines|
  {
    hide ReadLine, Place;
    if i > 0 && ReadLine(lines[0]).Some? && Place(ReadLine(lines[0]).value, doc).Some? {
      LineFails(lines[1..], i - 1, Place(ReadLine(lines[0]).value, doc).value);
    }
  }

  lemma {:induction false} EntryWritten(keys: seq<string>, t: Entries, key: string)
    requires (forall k :: k in keys ==> k in t) && key in keys && t[key] != Nested
    ensures WritePair(key, t[key]) in WriteEntries(keys, t)
  {
    hide WritePair;
    if keys[0] != key {
      EntryWritten(keys[1..], t, key);
    }
  }

  lemma {:induction false} SectionWritten(names: seq<string>, config: Config, name: string, line: string)
    requires (forall n :: n in names ==> n in config) && name in names && line in WriteSection(name, config[name])
    ensures line in WriteSections(names, config)
  {
    hide WriteSection;
    if names[0] != name {
      SectionWritten(names[1..], config, name, line);
    }
  }

  lemma PairWritten(config: Config, name: string, key: string)
    requires name in config && config[name].Table? && key in config[name].entries && config[name].entries[key] != Nested
    ensures WritePair(key, config[name].entries[key]) in WriteSections(Sorted(config.Keys), config)
  {
    var t := config[name].entries;
    hide WritePair, WriteEntries, WriteSections, WriteHeader;
    EntryWritten(Sorted(t.Keys), t, key);
    SectionWritten(Sorted(config.Keys), config, name, WritePair(key, t[key]));
  }

  lemma UncleanFails(config: Config)
    requires BareNames(config) && !AllClean(config)
    ensures Read(Written(config)) == None
  {
    var name :| name in config && config[name].Table? && !CleanEntries(config[name].entries);
    var t := config[name].entries;
    var key :| key in t && t[key].Text? && !Clean(t[key].text);
    assert BareKey(key);
    hide *;
    PairWritten(config, name, key);
    UncleanPair(key, t[key].text);
    UnreadableLine(WriteSections(Sorted(config.Keys), config), WritePair(key, t[key]), BLANK);
    NothingRead(config);
  }

  lemma NothingRead(config: Config)
    requires ReadLines(Split(Join(WriteSections(Sorted(config.Keys), config), '\n'), '\n'), BLANK) == None
    ensures Read(Written(config)) == None
  {
    hide ReadLines, Split, Join, WriteSections;
  }

  lemma UnreadableLine(lines: seq<string>, line: string, doc: Document)
    requires doc.Ready() && line in lines && ReadLine(Split(line, '\n')[0]) == None
    ensures ReadLines(Split(Join(lines, '\n'), '\n'), doc) == None
  {
    hide ReadLine, ReadLines, Join;
    var i :| 0 <= i < |lines| && lines[i] == line;
    var piece := Split(line, '\n')[0];
    hide Split;
    SplitKeeps(lines, i, piece, '\n');
    var pieces := Split(Join(lines, '\n'), '\n');
    var j :| 0 <= j < |pieces| && pieces[j] == piece;
    LineFails(pieces, j, doc);
  }

  // ---- what is read has bare names

  ghost predicate BareHeads(have: map<seq<string>, Value>) {
    forall p :: p in have ==> p != [] && BareKey(p[0])
  }

  ghost predicate BareDocument(doc: Document) {
    forall n :: n in doc.tables ==> BareKey(n) && BareHeads(doc.tables[n])
  }

  lemma PlaceStaysBare(line: Line, doc: Document)
    requires doc.Ready() && BareDocument(doc) && Place(line, doc).Some?
    requires line.Header? ==> BareKey(line.name)
    requires line.Pair? ==> line.path != [] && BareKey(line.path[0])
    ensures BareDocument(Place(line, doc).value)
  {
    hide BareKey;
  }

  lemma {:induction false} ReadLinesBare(lines: seq<string>, doc: Document)
    requires doc.Ready() && BareDocument(doc) && ReadLines(lines, doc).Some?
    ensures BareDocument(ReadLines(lines, doc).value)
    decreases |lines|
  {
    hide ReadLine, Place, BareDocument, BareKey;
    if lines != [] {
      var line := ReadLine(lines[0]).value;
      PlaceStaysBare(line, doc);
      ReadLinesBare(lines[1..], Place(line, doc).value);
    }
  }

  lemma ShownBare(have: map<seq<string>, Value>)
    requires BareHeads(have)
    ensures BareEntries(Shown(have))
  {
    hide BareKey;
  }

  lemma InMemoryBare(doc: Document)
    requires BareDocument(doc)
    ensures BareNames(InMemory(doc))
  {
    hide BareKey, Shown, BareHeads, BareEntries;
    forall n | n in doc.tables
      ensures BareEntries(Shown(doc.tables[n]))
    {
      ShownBare(doc.tables[n]);
    }
  }

  lemma ReadBare(text: string)
    requires Read(text).Some?
    ensures BareNames(Read(text).value)
  {
    hide ReadLines, InMemory, BareNames, BareKey, Split;
    ReadLinesBare(Split(text, '\n'), BLANK);
    InMemoryBare(ReadLines(Split(text, '\n'), BLANK).value);
  }

  lemma KeptBare(config: Config)
    requires BareNames(Kept(config))
    ensures BareNames(config)
  {
    hide BareKey;
    forall s | s in config && config[s].Table?
      ensures BareKey(s) && BareEntries(config[s].entries)
    {
      var t := config[s].entries;
      assert s in Kept(config) && Kept(config)[s] == Table(KeptEntries(t));
      assert BareEntries(KeptEntries(t));
      forall k | k in t && t[k] != Nested
        ensures BareKey(k)
      {
        assert k in KeptEntries(t) && KeptEntries(t)[k] == t[k];
      }
    }
  }

  /**
   The writer and the reader undo each other: what was written reads back as all that the writer keeps exactly when
   every name it writes can stand without quotes and every text is free of control characters. A text that is not
   makes the whole file unreadable.
   */
  lemma WrittenReadsBack(config: Config)
    ensures Read(Written(config)) == Some(Kept(config)) <==> BareNames(config) && AllClean(config)
    ensures BareNames(config) && !AllClean(config) ==> Read(Written(config)) == None
  {
    hide *;
    if BareNames(config) && AllClean(config) {
      CleanReads(config);
    } else if BareNames(config) {
      UncleanFails(config);
    } else if Read(Written(config)) == Some(Kept(config)) {
      ReadBare(Written(config));
      KeptBare(config);
    }
  }
}
