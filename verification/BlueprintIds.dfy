/** Blueprint ids: `bp-<name>-<language>`, with a registry in front once published. */
module BlueprintIds {
  import opened Outcomes
  import opened Texts

  predicate Lower(c: char) {
    'a' <= c <= 'z'
  }

  predicate LowerOrDigit(c: char) {
    Lower(c) || '0' <= c <= '9'
  }

  /** A name without the line feed that may follow it. */
  function Core(name: string): string {
    if name != "" && name[|name| - 1] == '\n' then name[..|name| - 1] else name
  }

  /** Lower-case letters, digits and hyphens, a letter first and no hyphen last; one line feed may follow. */
  predicate NameOk(name: string) {
    var core := Core(name);
    && core != "" && Lower(core[0]) && LowerOrDigit(core[|core| - 1])
    && forall i :: 0 <= i < |core| ==> LowerOrDigit(core[i]) || core[i] == '-'
  }

  datatype BlueprintId = BlueprintId(registry: Option<string>, name: string, language: string)

  const BP: string := "bp"

  /** A missing or empty registry is left out. */
  function Compose(b: BlueprintId): string {
    (if b.registry.Some? && b.registry.value != "" then b.registry.value + "-" else "")
    + BP + "-" + b.name + "-" + b.language
  }

  predicate IsBlueprintId(id: string) {
    var parts := Split(id, '-');
    id != "" && if parts[0] == BP then |parts| >= 3 else |parts| >= 4 && parts[1] == BP
  }

  datatype IdError = EmptyId | TooFewParts | NoMarker | BadName | NoLanguage

  function Parse(id: string): Result<BlueprintId, IdError> {
    var parts := Split(id, '-');
    var last := |parts| - 1;
    if id == "" then Err(EmptyId)
    else if |parts| < 3 then Err(TooFewParts)
    else if parts[0] == BP then Decomposed(None, parts[1..last], parts[last])
    else if |parts| >= 4 && parts[1] == BP then Decomposed(Some(parts[0]), parts[2..last], parts[last])
    else Err(NoMarker)
  }

  function Decomposed(registry: Option<string>, name: seq<string>, language: string): Result<BlueprintId, IdError> {
    if !NameOk(Join(name, '-')) then Err(BadName)
    else if language == "" then Err(NoLanguage)
    else Ok(BlueprintId(registry, Join(name, '-'), language))
  }

  /** The parts a composed id joins, for a registry that is kept. */
  ghost function PartsOf(registry: Option<string>, name: string, language: string): seq<string> {
    (if registry.Some? then [registry.value] else []) + [BP] + Split(name, '-') + [language]
  }

  lemma PartsJoin(registry: Option<string>, name: string, language: string)
    requires Plain(language, '-') && (registry.Some? ==> Plain(registry.value, '-'))
    ensures AllPlain(PartsOf(registry, name, language), '-')
    ensures Join(PartsOf(registry, name, language), '-') ==
      (if registry.Some? then registry.value + "-" else "") + BP + "-" + name + "-" + language
    ensures Split(Join(PartsOf(registry, name, language), '-'), '-') == PartsOf(registry, name, language)
  {
    SplitPlain(name, '-');
    JoinSplit(name, '-');
    var front := (if registry.Some? then [registry.value] else []) + [BP];
    var parts := PartsOf(registry, name, language);
    assert parts == front + Split(name, '-') + [language];
    JoinAppend(front + Split(name, '-'), [language], '-');
    JoinAppend(front, Split(name, '-'), '-');
    if registry.Some? {
      JoinAppend([registry.value], [BP], '-');
    }
    assert Plain(BP, '-');
    SplitJoin(parts, '-');
  }

  /** The parts of an id that parses. */
  lemma ParsedParts(id: string)
    requires Parse(id).Ok?
    ensures var b := Parse(id).value;
      && Split(id, '-') == PartsOf(b.registry, b.name, b.language)
      && NameOk(b.name) && b.language != "" && Plain(b.language, '-')
      && (b.registry.Some? ==> Plain(b.registry.value, '-') && b.registry.value != BP)
  {
    SplitPlain(id, '-');
    hide NameOk, Split, Join;
    var parts, b := Split(id, '-'), Parse(id).value;
    var last := |parts| - 1;
    var from := if b.registry.None? then 1 else 2;
    assert AllPlain(parts[from..last], '-');
    SplitJoin(parts[from..last], '-');
    assert parts == parts[..from] + parts[from..last] + [parts[last]];
  }

  /** Which names are taken, letter by letter. */
  lemma NamesAre(name: string)
    ensures NameOk(name) <==>
      var core := Core(name);
      && core != "" && core[0] in LETTERS && core[|core| - 1] != '-'
      && forall i :: 0 <= i < |core| ==> core[i] in LETTERS || core[i] in DIGITS || core[i] == '-'
  {
    var core := Core(name);
    forall i | 0 <= i < |core|
      ensures (Lower(core[i]) <==> core[i] in LETTERS) && (LowerOrDigit(core[i]) <==> core[i] in LETTERS || core[i] in DIGITS)
    {
      LettersAre(core[i]);
    }
    assert !LowerOrDigit('-');
    hide Lower, LowerOrDigit, Core;
  }

  /** The text starts with the front and goes on in at least two more segments. */
  ghost predicate Fronts(front: string, id: string) {
    exists a, b :: id == front + "-" + a + "-" + b
  }

  lemma TwoMore(front: seq<string>, id: string)
    requires front != [] && AllPlain(front, '-')
    ensures Fronts(Join(front, '-'), id) <==> front <= Split(id, '-') && |Split(id, '-')| >= |front| + 2
  {
    var parts := Split(id, '-');
    if front <= parts && |parts| >= |front| + 2 {
      TwoMoreParts(front, id);
    }
    if Fronts(Join(front, '-'), id) {
      var a, b :| id == Join(front, '-') + "-" + a + "-" + b;
      SplitJoin(front, '-');
      SplitConcat(Join(front, '-') + "-" + a, b, '-');
      SplitConcat(Join(front, '-'), a, '-');
    }
  }

  lemma TwoMoreParts(front: seq<string>, id: string)
    requires front != [] && front <= Split(id, '-') && |Split(id, '-')| >= |front| + 2
    ensures Fronts(Join(front, '-'), id)
  {
    var parts := Split(id, '-');
    var rest := parts[|front|..];
    JoinSplit(id, '-');
    assert parts == front + rest && rest == [rest[0]] + rest[1..];
    JoinAppend(front, rest, '-');
    JoinAppend([rest[0]], rest[1..], '-');
    hide Split, Join;
    Rebracket(Join(front, '-'), Join([rest[0]], '-'), Join(rest[1..], '-'));
    assert id == Join(front, '-') + "-" + Join([rest[0]], '-') + "-" + Join(rest[1..], '-');
  }

  lemma Rebracket(a: string, b: string, c: string)
    ensures a + "-" + (b + "-" + c) == a + "-" + b + "-" + c
  {
  }

  /** What the structural check takes: `bp-` or a segment and `bp-` in front of two segments or more. */
  lemma BlueprintIdsAre(id: string)
    ensures IsBlueprintId(id) <==> Fronts(BP, id) || exists r :: Plain(r, '-') && Fronts(r + "-" + BP, id)
  {
    var parts := Split(id, '-');
    SplitPlain(id, '-');
    assert Plain(BP, '-') && Join([BP], '-') == BP;
    TwoMore([BP], id);
    assert [BP] <= parts <==> parts[0] == BP;
    forall r | Plain(r, '-') ensures Fronts(r + "-" + BP, id) <==> parts[0] == r && |parts| >= 4 && parts[1] == BP {
      assert Join([r, BP], '-') == r + "-" + BP by {
        assert [r, BP][1..] == [BP];
      }
      TwoMore([r, BP], id);
      assert [r, BP] <= parts <==> |parts| >= 2 && parts[0] == r && parts[1] == BP;
    }
    assert Plain(parts[0], '-');
    hide Split, Join, Fronts;
    if IsBlueprintId(id) && parts[0] != BP {
      assert Fronts(parts[0] + "-" + BP, id);
    }
  }

  /** The text these parts spell, for parts an id can be read as. */
  ghost predicate Spells(b: BlueprintId, id: string) {
    && NameOk(b.name) && b.language != "" && Plain(b.language, '-')
    && (b.registry.Some? ==> Plain(b.registry.value, '-') && b.registry.value != BP)
    && id == (if b.registry.Some? then b.registry.value + "-" else "") + BP + "-" + b.name + "-" + b.language
  }

  /** Which ids parse, and as what. */
  lemma ParseSpells(id: string, b: BlueprintId)
    ensures Parse(id) == Ok(b) <==> Spells(b, id)
  {
    if Parse(id).Ok? {
      var p := Parse(id).value;
      ParsedParts(id);
      PartsJoin(p.registry, p.name, p.language);
      JoinSplit(id, '-');
    }
    if Spells(b, id) {
      PartsJoin(b.registry, b.name, b.language);
      JoinSplit(b.name, '-');
      var parts := PartsOf(b.registry, b.name, b.language);
      var from := if b.registry.None? then 1 else 2;
      assert parts[from..|parts| - 1] == Split(b.name, '-');
      hide NameOk, Join, Split;
    }
  }

  /** What is wrong with an id that does not parse. */
  lemma ParseErrors(id: string)
    requires Parse(id).Err?
    ensures Parse(id).error == EmptyId <==> id == ""
    ensures Parse(id).error in {TooFewParts, NoMarker} <==> id != "" && !IsBlueprintId(id)
    ensures Parse(id).error == TooFewParts <==> id != "" && |Split(id, '-')| < 3
  {
  }

  lemma ParsedIsBlueprintId(id: string)
    ensures Parse(id).Ok? ==> IsBlueprintId(id)
  {
    assert Parse(id).Ok? ==> |Split(id, '-')| >= 3;
  }

  /** Composing what was parsed gives the same id exactly when its registry segment is not empty. */
  lemma ComposeParsed(id: string)
    requires Parse(id).Ok?
    ensures Compose(Parse(id).value) == id <==> Parse(id).value.registry != Some("")
  {
    var b := Parse(id).value;
    ParsedParts(id);
    PartsJoin(b.registry, b.name, b.language);
    JoinSplit(id, '-');
  }

  /** What an id can carry: a valid name, a language and a registry without hyphens, the registry not the marker. */
  predicate Canonical(b: BlueprintId) {
    && NameOk(b.name) && b.language != "" && Plain(b.language, '-')
    && (b.registry.Some? ==> Plain(b.registry.value, '-') && b.registry.value != "" && b.registry.value != BP)
  }

  /** Parsing what was composed gives the same parts back exactly for the ones an id can carry. */
  lemma ParseComposed(b: BlueprintId)
    ensures Parse(Compose(b)) == Ok(b) <==> Canonical(b)
  {
    if Canonical(b) {
      PartsJoin(b.registry, b.name, b.language);
      JoinSplit(b.name, '-');
      var parts := PartsOf(b.registry, b.name, b.language);
      var from := if b.registry.None? then 1 else 2;
      assert parts[from..|parts| - 1] == Split(b.name, '-');
    }
    if Parse(Compose(b)) == Ok(b) {
      ParsedParts(Compose(b));
      if b.registry == Some("") {
        var plain := BlueprintId(None, b.name, b.language);
        PartsJoin(None, b.name, b.language);
        assert Split(Compose(b), '-')[0] == BP;
      }
    }
  }
}
