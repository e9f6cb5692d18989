/** Inputs at which the program does not do what one would expect of it; the exact conditions stand beside the code they are about. */
module Counterexamples {
  import opened Outcomes
  import opened LinkGraph
  import opened Marks
  import opened Procedures
  import Contents
  import Releases
  import opened Flattening
  import NestedWalks
  import WalkView
  import MethodShape
  import ViewCommutes
  import Installer
  import Cascade
  import CascadeLaws
  import BlueprintStatus
  import BlueprintIds
  import PackSizing
  import Texts
  import DocumentEdits
  import ProcedureStore
  import TomlLines
  import TomlFile
  import TomlRoundTrip
  import Settings
  import SettingsLaws

  // ---- walks

  const OUTER := Id("r")
  const INNER := Id("q")

  /** r's first step runs q, its second is its own. */
  const LINKED: Library := map[
    OUTER := [Step("a", "x", Some(INNER)), Step("b", "x", None)],
    INNER := [Step("c", "x", None)]
  ]

  lemma LinkedMethod()
    ensures MethodShape.Keys(Method(LINKED, OUTER)) ==
      [MethodShape.Key(OUTER, 1, "a"), MethodShape.Key(INNER, 1, "c"), MethodShape.Key(OUTER, 2, "b")]
  {
    assert INNER !in FRAMEWORK;
    var all: set<Id> := {OUTER, INNER};
    FlatStep(LINKED, OUTER, [OUTER], 0, {OUTER});
    InlinedIs(LINKED, OUTER, [OUTER], 0, {OUTER});
    assert {OUTER} + {INNER} == all;
    FlatStep(LINKED, INNER, [OUTER] + [INNER], 0, all);
    InlinedIs(LINKED, INNER, [OUTER] + [INNER], 0, all);
    FlatStep(LINKED, INNER, [OUTER] + [INNER], 1, all);
    FlatStep(LINKED, OUTER, [OUTER], 1, all);
    InlinedIs(LINKED, OUTER, [OUTER], 1, all);
    FlatStep(LINKED, OUTER, [OUTER], 2, all);
  }

  const NEW_STEP := Step("n", "x", None)

  lemma LinkedValid()
    ensures forall p :: p in LINKED ==> ValidDocument(LINKED[p])
    ensures ValidDocument([Step("a", "x", Some(INNER)), NEW_STEP, Step("b", "x", None)])
  {
    assert IdShape("q");
  }

  lemma LinkedAccepts()
    ensures ProcedureStore.Effect(LINKED, ProcedureStore.AddSteps(OUTER, [NEW_STEP], Some("a"))).Some?
  {
    var d := LINKED[OUTER];
    assert DocumentEdits.Spliced(d, [NEW_STEP], Some("a")) == [d[0], NEW_STEP, d[1]];
    LinkedValid();
  }

  /** A step added in a walk at a step that inlines a procedure: the walk shows it above the inlined steps, the method below. */
  lemma AddedAtALink()
    ensures var s := WalkView.State(LINKED, ViewCommutes.FreshBoxes(Method(LINKED, OUTER)));
      && ViewCommutes.ShowsWhole(s, OUTER)
      && var after := WalkView.After(s, WalkView.AddAfter(1, NEW_STEP)); after.Some? && !ViewCommutes.ShowsWhole(after.value, OUTER)
  {
    var out := Method(LINKED, OUTER);
    var s := WalkView.State(LINKED, ViewCommutes.FreshBoxes(out));
    var c := WalkView.AddAfter(1, NEW_STEP);
    LinkedMethod();
    LinkedValid();
    LinkedAccepts();
    assert out[0..|out|] == out;
    ViewCommutes.OpenedAgrees(LINKED, OUTER, 0, |out|);
    assert KeyAt(out, 0) == MethodShape.Key(OUTER, 1, "a") && KeyAt(out, 1) == MethodShape.Key(INNER, 1, "c");
    WalkView.IndexOfNumber(s, 1);
    assert WalkView.After(s, c).Some?;
    ViewCommutes.EditingCommutes(s, c, OUTER, [], []);
  }

  function KeyAt(out: seq<Entry>, i: nat): (k: MethodShape.Key)
    requires i < |out|
    ensures k == MethodShape.Keys(out)[i]
  {
    MethodShape.KeyOf(out[i])
  }

  const SINGLE: Library := map[OUTER := [Step("a", "x", None)]]

  /** A closed box whose step's text is edited: the reason it was closed with is gone. */
  lemma EditedWhenClosed()
    ensures var box := WalkView.Box(1, Done, "a", OUTER, 1, Some(WalkView.Note(Done, "found it")));
      var s := WalkView.State(SINGLE, [box]);
      && WalkView.Agrees(s) && WalkView.Explained(s.boxes)
      && var after := WalkView.After(s, WalkView.EditAt(1, DocumentEdits.StepChange(None, Some("y"), None)));
         after.Some? && !WalkView.Explained(after.value.boxes)
  {
    var s := WalkView.State(SINGLE, [WalkView.Box(1, Done, "a", OUTER, 1, Some(WalkView.Note(Done, "found it")))]);
    var c := WalkView.EditAt(1, DocumentEdits.StepChange(None, Some("y"), None));
    assert ValidDocument(SINGLE[OUTER]) && ValidDocument([Step("a", "y", None)]);
    assert SINGLE[OUTER][0 := Step("a", "y", None)] == [Step("a", "y", None)];
    WalkView.IndexOfNumber(s, 1);
    ShortTextQuiet("x");
    ShortTextQuiet("y");
    assert WalkView.After(s, c).Some?;
    WalkView.CommandKeepsReasons(s, c);
  }

  lemma ShortTextQuiet(text: string)
    requires |text| == 1
    ensures WalkView.ReasonIn(text) == None
  {
    assert text[1..] == "" && Texts.StripLeft("") == "" && |Texts.StripLeft(text)| <= 1;
    assert forall s: string :: |s| == 1 ==> s[..0] == "";
    assert |Texts.Strip(text)| <= 1;
  }

  /** A step whose text starts like a reason. */
  const RINGS: Library := map[OUTER := [Step("a", "done:x", None)]]

  /** Ticked, its box is read with the text for a reason, not with the words of the tick. */
  lemma TextTakenForReason()
    ensures var box := WalkView.Box(1, Open, "a", OUTER, 1, Some(WalkView.Note(Done, "x")));
      var s, note := WalkView.State(RINGS, [box]), WalkView.Tick(WalkView.TickCall({1}, {}, "", "it rang", false, Some({1})));
      && WalkView.Agrees(s)
      && var after := WalkView.After(s, note);
      after.Some? && after.value.boxes[0].mark == Done && after.value.boxes[0].reason == Some(WalkView.Note(Done, "x"))
  {
    var box := WalkView.Box(1, Open, "a", OUTER, 1, Some(WalkView.Note(Done, "x")));
    var t := WalkView.TickCall({1}, {}, "", "it rang", false, Some({1}));
    RingsRead();
    assert ValidDocument(RINGS[OUTER]);
    assert [box][0].number == 1 && WalkView.HasNumber([box], 1);
    var ticked := WalkView.Ticked([box], t);
    assert ticked == [box.(mark := Done, reason := Some(WalkView.Note(Done, "it rang")))];
    assert WalkView.InRange(RINGS, ticked[0]);
    hide WalkView.ReasonIn;
  }

  lemma RingsRead()
    ensures WalkView.ReasonIn("done:x") == Some(WalkView.Note(Done, "x"))
  {
    var text := "done:x";
    assert text[|text| - 1] == 'x';
    assert Texts.Strip(text) == text && Texts.Strip("x") == "x";
    assert WalkView.DONE_WORD <= text && text[|WalkView.DONE_WORD|..] == "x";
  }

  const EMPTY: Library := map[OUTER := []]

  /** A procedure without steps: nothing to open, one walk in the report, and no way to close one. */
  lemma WithoutSteps()
    ensures ValidDocument(EMPTY[OUTER]) && Method(EMPTY, OUTER) == []
    ensures !NestedWalks.Closable(EMPTY, OUTER)
    ensures Sound(EMPTY)
  {
    FlatStep(EMPTY, OUTER, [OUTER], 0, {OUTER});
    assert forall a, b :: !Edge(Links(EMPTY), a, b);
    forall a
      ensures !Leads(Links(EMPTY), a, a)
    {
      if Leads(Links(EMPTY), a, a) {
        var c := LeadsFirst(Links(EMPTY), a, a);
      }
    }
  }

  // ---- blueprints

  const ALONE := Installer.World(map[], false, map[], "cg", map[])

  function At(version: string): Installer.Leaf {
    Installer.Leaf("w", Some(version))
  }

  /** A library with w at versions 1 to 3. */
  const STOCKED := ALONE.(library := map["w" := Installer.Shelf(Some("3"), None, map["1" := At("1"), "2" := At("2")])])

  /** Two pins of a leaf that is installed at a third version: the install goes through and one of them does not hold. */
  lemma PinnedTwice()
    ensures var leaves, deps := map["w" := At("1")], [Cascade.Dep("w", "2"), Cascade.Dep("w", "3")];
      var end := Cascade.Cascaded(STOCKED, leaves, deps, 0, {});
      end.ok && !BlueprintStatus.Healthy(end.leaves, deps)
  {
    var leaves, deps := map["w" := At("1")], [Cascade.Dep("w", "2"), Cascade.Dep("w", "3")];
    assert deps[0] in deps && deps[1] in deps;
    CascadeLaws.GoesThrough(STOCKED, leaves, deps, 0);
    BlueprintStatus.InstalledIsHealthy(STOCKED, leaves, deps, 0, {});
  }

  /** The same pins of a leaf that is not installed yet: the second install fails, and all is rolled back. */
  lemma PinnedTwiceAbsent()
    ensures !Cascade.Cascaded(STOCKED, map[], [Cascade.Dep("w", "2"), Cascade.Dep("w", "3")], 0, {}).ok
  {
    var deps := [Cascade.Dep("w", "2"), Cascade.Dep("w", "3")];
    assert deps[0].id == deps[1].id;
    assert !CascadeLaws.Fits(STOCKED, map[], deps, 1);
    CascadeLaws.GoesThrough(STOCKED, map[], deps, 0);
  }

  /** The registry alone has w, by now at version 2. */
  const SERVING := ALONE.(cloud := true, served := map[Installer.Source("cg", "w") := At("2")])

  /** One pin, at version 1: the install goes through with version 2, and the blueprint is broken. */
  lemma ServedElsewhere()
    ensures var deps := [Cascade.Dep("w", "1")];
      var end := Cascade.Cascaded(SERVING, map[], deps, 0, {});
      end.ok && end.leaves == map["w" := At("2")] && !BlueprintStatus.Healthy(end.leaves, deps)
  {
    var deps := [Cascade.Dep("w", "1")];
    var s := Cascade.Planned(map[], deps[0]);
    assert Cascade.Plan(map[], deps)[..0] == [] && s.action.Install?;
    var start := Cascade.Started(map[], 0);
    assert Cascade.Step(SERVING, start, s, {}) == Cascade.Cascaded(SERVING, map[], deps, 0, {});
    assert deps[0] in deps;
  }

  /** w at version 1, pinned at 2 with a leaf x that nobody has: rolling back leaves w at version 2. */
  lemma NotBroughtBack()
    ensures var leaves, deps := map["w" := At("1")], [Cascade.Dep("w", "2"), Cascade.Dep("x", "1")];
      var end := Cascade.Cascaded(SERVING, leaves, deps, 0, {});
      !end.ok && Cascade.Undone(SERVING, end.leaves, end.log, end.operations, {}) != leaves
  {
    var leaves, deps := map["w" := At("1")], [Cascade.Dep("w", "2"), Cascade.Dep("x", "1")];
    assert Installer.Named(leaves, "x") == {} by {
      assert forall k :: k in leaves ==> k == "w";
    }
    var u := Cascade.Removed("w", "1");
    assert deps[..2] == deps && deps[0].id == u.id && Cascade.Planned(leaves, deps[0]).action == Cascade.Override("1");
    assert CascadeLaws.Overrides(leaves, deps, u);
    assert !CascadeLaws.Returns(SERVING, leaves, "w", "1");
    assert CascadeLaws.Fits(SERVING, leaves, deps, 0) && !CascadeLaws.Fits(SERVING, leaves, deps, 1);
    CascadeLaws.StoppedRestores(SERVING, leaves, deps, 0, 1);
  }

  /** w was installed by a prefixed id and is found in that place. */
  const PREFIXED := map["cg-w" := At("1")]

  lemma FoundPrefixed()
    ensures Installer.Find(PREFIXED, "w") == Some("cg-w") && Installer.FoundVersion(PREFIXED, "w") == Some("1")
  {
    assert Installer.Named(PREFIXED, "w") == {"cg-w"};
  }

  /** Pinning w at version 2 moves it: cg-w is gone, although no pin named it and no warning can tell its owners. */
  lemma PrefixedMoves()
    ensures var deps := [Cascade.Dep("w", "2")];
      var end := Cascade.Cascaded(STOCKED, PREFIXED, deps, 0, {});
      && end.ok && end.leaves == map["w" := At("2")]
      && Installer.FoundVersion(PREFIXED, "cg-w") == Some("1") && Installer.FoundVersion(end.leaves, "cg-w") == None
  {
    var deps := [Cascade.Dep("w", "2")];
    FoundPrefixed();
    var s := Cascade.Planned(PREFIXED, deps[0]);
    var start := Cascade.Started(PREFIXED, 0);
    assert Cascade.Plan(PREFIXED, deps)[..0] == [];
    assert Cascade.Step(STOCKED, start, s, {}) == Cascade.Cascaded(STOCKED, PREFIXED, deps, 0, {});
    assert PREFIXED - {"cg-w"} == map[];
    assert Installer.Named(map["w" := At("2")], "cg-w") == {};
  }

  /** Pinning a prefixed id: the leaf it brings goes by the bare id, and is reported as an orphan. */
  lemma PrefixedIsOrphan()
    ensures var world := SERVING.(routes := map["cg-w" := Installer.Route("cg", "w")]);
      var deps := [Cascade.Dep("cg-w", "2")];
      var end := Cascade.Cascaded(world, map[], deps, 0, {});
      && end.ok && BlueprintStatus.Healthy(end.leaves, deps)
      && BlueprintStatus.Orphans(end.leaves, map["b" := deps]) == {"w"}
  {
    var world := SERVING.(routes := map["cg-w" := Installer.Route("cg", "w")]);
    var deps := [Cascade.Dep("cg-w", "2")];
    var s := Cascade.Planned(map[], deps[0]);
    var start := Cascade.Started(map[], 0);
    assert Cascade.Plan(map[], deps)[..0] == [] && s.action.Install?;
    assert Cascade.Step(world, start, s, {}) == Cascade.Cascaded(world, map[], deps, 0, {});
    var after := map["cg-w" := At("2")];
    assert Cascade.Cascaded(world, map[], deps, 0, {}).leaves == after;
    assert after["cg-w"].name == "w";
    assert BlueprintStatus.Names(after) == {"w"};
    assert "b" in map["b" := deps] && !BlueprintStatus.Referenced(map["b" := deps], "w");
  }

  lemma EmptyRegistryParts()
    ensures Texts.Split("-bp-a-py", '-') == ["", "bp", "a", "py"]
  {
    var parts := ["", "bp", "a", "py"];
    assert parts[1..] == ["bp", "a", "py"] && parts[1..][1..] == ["a", "py"] && parts[1..][1..][1..] == ["py"];
    assert Texts.Join(["a", "py"], '-') == "a-py";
    assert Texts.Join(["bp", "a", "py"], '-') == "bp-a-py";
    assert Texts.Join(parts, '-') == "-bp-a-py";
    hide Texts.Join, Texts.Split;
    Texts.SplitJoin(parts, '-');
  }

  /** `-bp-a-py`: an empty registry segment, which composing leaves out. */
  lemma EmptyRegistry()
    ensures var id := "-bp-a-py"; BlueprintIds.Parse(id).Ok? && BlueprintIds.Compose(BlueprintIds.Parse(id).value) == "bp-a-py" != id
  {
    EmptyRegistryParts();
    OnePart("a");
    hide Texts.Join, Texts.Split;
    assert ["", "bp", "a", "py"][2..3] == ["a"];
    assert BlueprintIds.NameOk("a");
  }

  lemma OnePart(part: string)
    ensures Texts.Join([part], '-') == part
  {
  }

  // ---- releases

  const CODE := Contents.File("a.py", "code", Contents.Done)
  const MORE := Contents.File("a.py", "more code", Contents.Done)
  const SRC := Contents.AFolder(CODE)
  const SHEET := Contents.Manifest("fields", "stamp")
  const ANY := Releases.Request(Releases.Minor, "why", true, false, false, false, "", "stamp", {"build"})
  const FIRST := Releases.Semver(1, 0, 0)

  /** A head with these items, and nothing archived. */
  function HeadWith(items: map<string, Contents.Item>): Releases.Release {
    Releases.Release(Some(CopyWith(items)), map[], [Releases.LogEntry(FIRST, "Initial release")])
  }

  function CopyWith(items: map<string, Contents.Item>): Releases.Working {
    Releases.Working(FIRST, Contents.Content(items, SHEET))
  }

  lemma Sources(t: Contents.Tree, items: map<string, Contents.Item>)
    requires "src" in items && items["src"] == Contents.AFolder(t) && items.Keys !! {"tests", "examples", "python"}
    ensures Contents.HashOf(items) == Some(Contents.Bytes(t))
  {
    assert "src" in Contents.HASHED;
    assert Contents.BytesOf(items, "src") + "" + "" + "" == Contents.Bytes(t);
  }

  lemma PlainName(name: string)
    requires |name| == 4 && name[0] != '.'
    ensures !Contents.Ends(name, ".pyc") && !Contents.IsMetadata(name)
  {
    assert name[|name| - |".pyc"|..] == name;
  }

  lemma FileNames()
    ensures !Contents.Ends("a.py", ".pyc") && !Contents.IsMetadata("a.py")
    ensures Contents.Bytes(CODE) == "code" && Contents.Bytes(MORE) == "more code"
    ensures Contents.Bytes(Contents.File("b.py", "code", Contents.Done)) == "code"
  {
    PlainName("a.py");
    PlainName("b.py");
    hide Contents.Ends, Contents.IsMetadata;
  }

  const README := "README.md"

  /** A changed file beside the hashed folders, and a renamed file inside one: both are refused as identical. */
  lemma ChangesNotSeen()
    ensures var head := HeadWith(map["src" := SRC, README := Contents.AFile("old")]);
      && Releases.CheckedIn(head, CopyWith(map["src" := SRC, README := Contents.AFile("new")]), ANY) == Err(Releases.Identical)
      && Releases.CheckedIn(head, CopyWith(map["src" := Contents.AFolder(Contents.File("b.py", "code", Contents.Done)), README := Contents.AFile("old")]), ANY)
         == Err(Releases.Identical)
  {
    FileNames();
    hide Contents.Bytes;
    Sources(CODE, map["src" := SRC, README := Contents.AFile("old")]);
    Sources(CODE, map["src" := SRC, README := Contents.AFile("new")]);
    var renamed := Contents.File("b.py", "code", Contents.Done);
    Sources(renamed, map["src" := Contents.AFolder(renamed), README := Contents.AFile("old")]);
    hide Contents.HashOf, Contents.Copied;
  }

  /** A blueprint copy that dropped python/ and changed src/: the library keeps the old python/. */
  lemma DroppedFolderStays()
    ensures var head := HeadWith(map["src" := SRC, "python" := SRC]);
      var w := CopyWith(map["src" := Contents.AFolder(MORE)]);
      var after := Releases.BlueprintCheckedIn(head, w, ANY);
      after.Ok? && "python" in after.value.head.value.content.items && "python" !in w.content.items
  {
    var head, w := HeadWith(map["src" := SRC, "python" := SRC]), CopyWith(map["src" := Contents.AFolder(MORE)]);
    FileNames();
    assert "src" in head.head.value.content.items && "src" in w.content.items;
    assert Contents.HashOf(head.head.value.content.items).value == "code" + "code";
    assert Contents.HashOf(w.content.items).value == "more code";
    assert "more code"[0] != ("code" + "code")[0];
  }

  /** a.py, and a folder of this name with a file in it. */
  function Beside(folder: string): Contents.Tree {
    Contents.Folder(folder, CODE, CODE)
  }

  /** src/build/a.py of a Python widget is hashed and not copied: the untouched copy is accepted again, time after time. */
  lemma BumpedForNothing()
    ensures var w := CopyWith(map["src" := Contents.AFolder(Beside("build"))]);
      var once := Releases.CheckedIn(Releases.NOTHING, w, ANY);
      && once.Ok? && once.value.head.value.version == FIRST
      && Releases.CheckedIn(once.value, w, ANY).Ok?
  {
    var w := CopyWith(map["src" := Contents.AFolder(Beside("build"))]);
    var once := Releases.CheckedIn(Releases.NOTHING, w, ANY);
    FileNames();
    assert "src" in w.content.items && "src" in Contents.HASHED;
    assert Contents.Bytes(CODE) != "";
    assert !Contents.HashKept(Beside("build"), Contents.CopyFilter(Contents.Widget({"build"})));
    assert !Contents.HashKeptAt(w.content.items, "src", Contents.CopyFilter(Contents.Widget({"build"})));
    assert Releases.Stamped(w.content, "stamp") == w.content;
    Releases.CheckedInIsNoChange(Releases.NOTHING, w, ANY, ANY);
  }

  /** Released with src/history/, then released with other code: the archive lacks src/history/, and so does what is restored from it. */
  lemma HistoryFolderLost()
    ensures var w := CopyWith(map["src" := Contents.AFolder(Beside("history"))]);
      var once := Releases.CheckedIn(Releases.NOTHING, w, ANY);
      var twice := Releases.CheckedIn(once.value, CopyWith(map["src" := Contents.AFolder(MORE)]), ANY);
      && once.Ok? && once.value.head.value == w && twice.Ok? && FIRST in twice.value.history
      && var back := Releases.Restored(twice.value, FIRST, ANY);
      back.Ok? && back.value.head.value.content.items == map["src" := SRC]
  {
    var w := CopyWith(map["src" := Contents.AFolder(Beside("history"))]);
    var once := Releases.CheckedIn(Releases.NOTHING, w, ANY);
    ReleasedWhole();
    var copy := CopyWith(map["src" := Contents.AFolder(MORE)]);
    var twice := Releases.CheckedIn(once.value, copy, ANY);
    HistoryHashes();
    HistoryKept();
    hide Contents.HashOf, Contents.Bytes, Contents.Kept, Contents.CopyFilter, Contents.ArchiveFilter;
    assert twice.value.history[FIRST].items == map["src" := SRC];
    assert twice.value.head.value.content.items == map["src" := Contents.AFolder(MORE)];
  }

  lemma HistoryHashes()
    ensures var first := Contents.HashOf(map["src" := Contents.AFolder(Beside("history"))]);
      var second, third := Contents.HashOf(map["src" := Contents.AFolder(MORE)]), Contents.HashOf(map["src" := SRC]);
      first.Some? && second != first && third != second
  {
    FileNames();
    assert Contents.Bytes(Beside("history")) == "code" + "code";
    hide Contents.Bytes;
    Sources(Beside("history"), map["src" := Contents.AFolder(Beside("history"))]);
    Sources(MORE, map["src" := Contents.AFolder(MORE)]);
    Sources(CODE, map["src" := SRC]);
    assert "more code"[0] != ("code" + "code")[0] && "more code"[0] != "code"[0];
  }

  lemma HistoryKept()
    ensures var k := Contents.Widget({"build"});
      && Contents.Kept(Beside("history"), Contents.ArchiveFilter(k)) == CODE
      && Contents.Kept(MORE, Contents.CopyFilter(k)) == MORE && Contents.Kept(CODE, Contents.CopyFilter(k)) == CODE
      && "src" !in Contents.TopSkips(k)
  {
    FileNames();
  }

  lemma ReleasedWhole()
    ensures var w := CopyWith(map["src" := Contents.AFolder(Beside("history"))]);
      var once := Releases.CheckedIn(Releases.NOTHING, w, ANY);
      once.Ok? && once.value.head.value == w
  {
    var w := CopyWith(map["src" := Contents.AFolder(Beside("history"))]);
    var k := Contents.Widget({"build"});
    FileNames();
    assert Contents.Clean(Beside("history"), Contents.CopyFilter(k));
    assert Contents.CleanContent(w.content, Contents.TopSkips(k), Contents.CopyFilter(k));
    Contents.KeptContentWhole(w.content, Contents.TopSkips(k), Contents.CopyFilter(k));
    assert Releases.Stamped(w.content, "stamp") == w.content;
  }

  /** A blueprint copy with src/cg/: the head lacks it, although nothing of the old head is missing. */
  lemma NestedFolderDropped()
    ensures var head, w := HeadWith(map["src" := SRC]), CopyWith(map["src" := Contents.AFolder(Beside("cg"))]);
      var after := Releases.BlueprintCheckedIn(head, w, ANY);
      && after.Ok? && Contents.Covers(w.content, head.head.value.content)
      && after.value.head.value.content.items == map["src" := SRC]
  {
    var head, w := HeadWith(map["src" := SRC]), CopyWith(map["src" := Contents.AFolder(Beside("cg"))]);
    var under := head.head.value.content;
    NestedSeen();
    var over := Contents.Copied(Releases.Stamped(w.content, "stamp"), Contents.Blueprint);
    assert over.items == map["src" := SRC];
    assert !Contents.CannotOverlay(under, over);
    hide Contents.HashOf, Contents.Kept, Contents.Copied, Contents.CannotOverlay;
    assert Contents.Overlaid(under, over).items == map["src" := SRC];
  }

  lemma NestedSeen()
    ensures Contents.HashOf(map["src" := Contents.AFolder(Beside("cg"))]) != Contents.HashOf(map["src" := SRC])
    ensures Contents.Kept(Beside("cg"), Contents.CopyFilter(Contents.Blueprint)) == CODE && "src" !in Contents.TopSkips(Contents.Blueprint)
  {
    FileNames();
    assert Contents.Bytes(Beside("cg")) == "code" + "code";
    hide Contents.Bytes;
    Sources(Beside("cg"), map["src" := Contents.AFolder(Beside("cg"))]);
    Sources(CODE, map["src" := SRC]);
    hide Contents.HashOf;
  }

  /** A version with an epoch: its bump has none, and sorts below it. */
  lemma EpochLost()
    ensures var v := Releases.Other("1!2.0.0", 1, 2, 0, 0, 0);
      Releases.Bump(v, Releases.Patch) == Some(Releases.Semver(2, 0, 1)) && Releases.Below(Releases.Semver(2, 0, 1), v)
  {
  }

  // ---- sizing

  /** Every figure 1, but an hour of flight asked for: a string never earns what it costs to carry. */
  lemma NeverEnough()
    ensures var s := PackSizing.Spec(1.0, 1.0, 1.0, 1.0, 60.0, 1.0, 1.0, 1.0, 1.0, 1, 1.0);
      PackSizing.Positive(s) && forall n: nat :: n >= 1 ==> !PackSizing.Meets(s, n)
  {
    var s := PackSizing.Spec(1.0, 1.0, 1.0, 1.0, 60.0, 1.0, 1.0, 1.0, 1.0, 1, 1.0);
    assert PackSizing.Margin(s) <= 0.0;
    PackSizing.SizeableIff(s);
  }

  // ---- settings

  lemma CloudKey()
    ensures Settings.Binary("cloud") == None && Settings.Wanted("cloud", "false") == Ok(TomlLines.Flag(false))
    ensures SettingsLaws.NameBare("cloud") && SettingsLaws.ValueClean("cloud", "false")
    ensures Settings.Slot("cloud") == Some(("library", "cloud"))
  {
    assert "paths."[0] != "cloud"[0];
    assert Settings.Lower("false") == "false";
  }

  lemma RegistryKey()
    ensures Settings.Slot("publish-registry") == Some(("publish", "registry"))
    ensures Settings.Wanted("publish-registry", "\n") == Ok(TomlLines.Text("\n"))
    ensures SettingsLaws.NameBare("publish-registry") && !SettingsLaws.ValueClean("publish-registry", "\n")
  {
    SettingsLaws.RegistryIsNoPath();
    assert TomlLines.Forbidden("\n"[0]);
  }

  lemma DefaultCloud()
    ensures Settings.Get(Settings.DEFAULTS, "cloud") == Settings.Is(TomlLines.Flag(true))
  {
    CloudKey();
  }

  /** The cloud switched off, then a registry with a line feed in its name: the cloud is on again. */
  lemma OneLineFeedForgetsAll()
    ensures var off := Settings.Saved(None, "cloud", "false");
      && Settings.Get(Settings.Loaded(off), "cloud") == Settings.Is(TomlLines.Flag(false))
      && var after := Settings.Saved(off, "publish-registry", "\n");
         after != off && Settings.Get(Settings.Loaded(after), "cloud") == Settings.Is(TomlLines.Flag(true))
  {
    hide *;
    var off := Settings.Saved(None, "cloud", "false");
    SettingsLaws.DefaultsWhole();
    CloudKey();
    CloudAccepted(Settings.DEFAULTS);
    SettingsLaws.CleanCarries(Settings.DEFAULTS, "cloud", "false");
    SettingsLaws.SetThenGet(None, "cloud", "false", "cloud");
    SeenCloud();
    RegistryKey();
    WholeAccepts(Settings.Loaded(off), "publish-registry", "\n");
    SettingsLaws.CarriesIs(Settings.Loaded(off), "publish-registry", "\n");
    SettingsLaws.SavedLoads(off, "publish-registry", "\n");
    DefaultCloud();
  }

  lemma SeenCloud()
    ensures SettingsLaws.Seen("cloud", "false") == Settings.Is(TomlLines.Flag(false))
  {
    CloudKey();
  }

  lemma CloudAccepted(config: TomlFile.Config)
    requires SettingsLaws.Whole(config)
    ensures Settings.Changed(config, "cloud", "false").Ok?
  {
    CloudKey();
    WholeAccepts(config, "cloud", "false");
  }

  lemma WholeAccepts(config: TomlFile.Config, key: string, raw: string)
    requires SettingsLaws.Whole(config) && Settings.Wanted(key, raw).Ok?
    ensures Settings.Changed(config, key, raw).Ok?
  {
    hide Settings.Wanted, Settings.Slot;
    Settings.WantedSlot(key, raw);
    SettingsLaws.Accepts(config, key, raw);
  }

  const REGISTRY_LINE := "registry = " + ESCAPED

  /** A line feed written as an escape. */
  const ESCAPED := "\"\\n\""

  const ESCAPING_FILE := "[publish]" + "\n" + REGISTRY_LINE

  lemma EscapeReads()
    ensures TomlLines.ReadValue(ESCAPED) == Some((TomlLines.Text("\n"), ""))
  {
    assert ESCAPED[1..] == "\\n\"" && ESCAPED[1..][2..] == "\"" && "\""[1..] == "";
    assert TomlLines.ReadText("\"") == Some(("", ""));
    assert "\\n\""[2..] == "\"" && TomlLines.Unescaped('n') == Some('\n') && ['\n'] + "" == "\n";
    assert TomlLines.ReadText("\\n\"") == Some(("\n", ""));
    assert ESCAPED[1] != '"' && "\"" <= ESCAPED;
  }

  lemma RegistryLineReads()
    ensures TomlLines.ReadLine(REGISTRY_LINE) == Some(TomlLines.Pair(["registry"], TomlLines.Text("\n")))
  {
    assert TomlLines.BareKey("registry");
    assert REGISTRY_LINE == "registry" + " = " + ESCAPED;
    EscapeReads();
    TomlLines.PairLine("registry", ESCAPED);
  }

  lemma EscapingLines()
    ensures Texts.Split(ESCAPING_FILE, '\n') == ["[publish]", REGISTRY_LINE]
  {
    var lines := ["[publish]", REGISTRY_LINE];
    assert lines[1..] == [REGISTRY_LINE];
    OnePart(REGISTRY_LINE);
    assert Texts.Join(lines, '\n') == ESCAPING_FILE;
    assert Texts.AllPlain(lines, '\n');
    hide Texts.Split, Texts.Join, Texts.AllPlain;
    Texts.SplitJoin(lines, '\n');
  }

  const BEGUN := TomlFile.Document(map[], map["publish" := map[]], Some("publish"))
  ghost const READ := TomlRoundTrip.With(BEGUN, map[["registry"] := TomlLines.Text("\n")])

  lemma EscapingDocument()
    ensures TomlFile.ReadLines(["[publish]"] + ([REGISTRY_LINE] + []), TomlRoundTrip.BLANK) == Some(READ)
  {
    RegistryLineReads();
    assert TomlLines.BareKey("publish") && TomlLines.WriteHeader("publish") == "[publish]";
    TomlLines.HeaderReads("publish");
    hide TomlLines.ReadLine, TomlLines.WriteHeader, TomlFile.Place;
    TomlRoundTrip.HeaderPlaces("publish", TomlRoundTrip.BLANK);
    TomlRoundTrip.PairPlaces("registry", TomlLines.Text("\n"), BEGUN);
    TomlRoundTrip.ReadOne("[publish]", [REGISTRY_LINE] + [], TomlRoundTrip.BLANK);
    TomlRoundTrip.ReadOne(REGISTRY_LINE, [], BEGUN);
  }

  lemma ReadInMemory()
    ensures Settings.Lookup(TomlFile.InMemory(READ), "publish", "registry") == Settings.Is(TomlLines.Text("\n"))
    ensures forall s :: s in TomlFile.InMemory(READ) <==> s == "publish"
    ensures TomlFile.InMemory(READ)["publish"].Table?
  {
    hide TomlFile.Shown, TomlFile.InMemory;
    forall s
      ensures s in TomlFile.InMemory(READ) <==> s == "publish"
      ensures s == "publish" ==> TomlFile.InMemory(READ)[s] == TomlFile.Table(TomlFile.Shown(READ.tables[s]))
    {
      TomlRoundTrip.InMemoryAt(READ, s);
    }
    TomlRoundTrip.ShownAt(READ.tables["publish"], "registry");
  }

  lemma EscapingReads()
    ensures TomlFile.Read(ESCAPING_FILE) == Some(TomlFile.InMemory(READ))
  {
    EscapingLines();
    EscapingDocument();
    hide TomlFile.ReadLines, Texts.Split, TomlFile.InMemory;
    assert ["[publish]"] + ([REGISTRY_LINE] + []) == ["[publish]", REGISTRY_LINE];
  }

  lemma LoadedOver(user: TomlFile.Config)
    requires (forall s :: s in user <==> s == "publish") && user["publish"].Table?
    requires Settings.Lookup(user, "publish", "registry") == Settings.Is(TomlLines.Text("\n"))
    ensures var config := Settings.Merged(Settings.DEFAULTS, user);
      && Settings.Lookup(config, "publish", "registry") == Settings.Is(TomlLines.Text("\n"))
      && "library" in config && config["library"].Table?
  {
    SettingsLaws.MergedLookup(user, "publish", "registry");
    hide Settings.Lookup;
  }

  lemma FileLoads(text: string)
    requires TomlFile.Read(text).Some?
    ensures Settings.Loaded(Some(text)) == Settings.Merged(Settings.DEFAULTS, TomlFile.Read(text).value)
  {
    hide TomlFile.Read, Settings.Merged;
  }

  lemma UncleanText(config: TomlFile.Config)
    requires Settings.Lookup(config, "publish", "registry") == Settings.Is(TomlLines.Text("\n"))
    ensures SettingsLaws.UncleanAt(config, "publish", "registry")
  {
    hide Settings.Lookup;
    assert TomlLines.Forbidden("\n"[0]);
  }

  lemma EscapingLoads()
    ensures SettingsLaws.UncleanAt(Settings.Loaded(Some(ESCAPING_FILE)), "publish", "registry")
    ensures Settings.Changed(Settings.Loaded(Some(ESCAPING_FILE)), "cloud", "false").Ok?
  {
    hide *;
    EscapingReads();
    ReadInMemory();
    FileLoads(ESCAPING_FILE);
    LoadedOver(TomlFile.Read(ESCAPING_FILE).value);
    UncleanText(Settings.Loaded(Some(ESCAPING_FILE)));
    CloudKey();
    SettingsLaws.Accepts(Settings.Loaded(Some(ESCAPING_FILE)), "cloud", "false");
  }

  /** A hand-written line feed escape: the file reads, and the first setting stored afterwards loses it all, itself included. */
  lemma EscapeForgetsAll()
    ensures var after := Settings.Saved(Some(ESCAPING_FILE), "cloud", "false");
      Settings.Loaded(after) == Settings.DEFAULTS && Settings.Get(Settings.Loaded(after), "cloud") == Settings.Is(TomlLines.Flag(true))
  {
    hide *;
    EscapingLoads();
    CloudKey();
    SettingsLaws.UncleanIsLost(Some(ESCAPING_FILE), "cloud", "false", "publish", "registry");
    DefaultCloud();
  }

  lemma DottedKey()
    ensures Settings.Binary("paths.a.b") == Some("a.b") && !SettingsLaws.NameBare("paths.a.b") && Texts.Strip("x") == "x"
  {
    assert "paths.a.b"[6..] == "a.b";
    assert !TomlLines.Bare("a.b"[1]);
  }

  /** `paths.a.b`: the name is written as a dotted key, and the setting does not read back. */
  lemma DottedPathLost()
    ensures Settings.Get(Settings.Loaded(Settings.Saved(None, "paths.a.b", "x")), "paths.a.b") != Settings.Is(TomlLines.Text("x"))
  {
    hide *;
    DottedKey();
    SettingsLaws.CarriesIs(Settings.Loaded(None), "paths.a.b", "x");
    SettingsLaws.PathReadsBack(None, "paths.a.b", "x");
  }
}
