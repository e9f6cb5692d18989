/**
 The commands on a flat walk file: tick, and edit, add or remove a step where the worker stands. Each reads the
 file, changes lines in place, writes it and re-renders it; its boxes end up exactly as `WalkView.After` says.
 */
module FlatWalk {
  import opened Outcomes
  import opened LinkGraph
  import opened Marks
  import opened Procedures
  import opened DocumentEdits
  import PS = ProcedureStore
  import opened Flattening
  import opened WalkView
  import opened WalkLines
  import opened WalkFile
  import opened Sequences

  /** A step's block as it is first written; notes: what is said of its link. */
  function StepChunk(number: nat, mark: Mark, source: Id, step: nat, title: string, text: string, notes: seq<Line>): (c: seq<Line>)
    requires LinksOnly(notes)
    ensures IsChunk(c) && BoxOf(c) == Box(number, mark, title, source, step, ReasonIn(text))
  {
    var b := Box(number, mark, title, source, step, None);
    ChunkShows(b, title, Some(text), notes, None, []);
    ChunkLines(b, title, [Text(text)] + notes, None, [])
  }

  function EntryChunk(e: Entry, number: nat): seq<Line> {
    StepChunk(number, Open, e.source, e.step, e.title, e.text, EntryNotes(e))
  }

  function EntryNotes(e: Entry): (notes: seq<Line>)
    ensures LinksOnly(notes)
  {
    if e.linked.None? then []
    else if e.framework then [LinkLine(RunsFramework, e.linked.value)]
    else if e.circular then [LinkLine(GoesBack, e.linked.value)]
    else if e.inlinedAbove then [LinkLine(StandsAbove, e.linked.value)]
    else []
  }

  function ReasonLines(reason: Option<Note>): seq<Line> {
    if reason.Some? then [ReasonLine(reason.value)] else []
  }

  /** A step's block as re-rendering writes it: whole, or folded to its reason once it is far past the open step. */
  function DrawnChunk(b: Box, s: Step, shown: bool): seq<Line> {
    ChunkLines(b, s.title, FrontLines(s, shown), if shown || b.mark != Open then b.reason else None, BackLines(b, s, shown))
  }

  predicate RunsLoop(s: Step) {
    s.link.Some? && s.link.value in FRAMEWORK
  }

  function FrontLines(s: Step, shown: bool): seq<Line> {
    if shown then [Text(s.text)] + if RunsLoop(s) then [LinkLine(RunsFramework, s.link.value)] else [] else []
  }

  function BackLines(b: Box, s: Step, shown: bool): seq<Line> {
    if shown then if s.link.Some? && !RunsLoop(s) then [LinkLine(IsInlined, s.link.value)] else []
    else if b.mark == Open then [Folded] else []
  }

  function ChunkLines(b: Box, title: string, front: seq<Line>, reason: Option<Note>, back: seq<Line>): seq<Line> {
    [StepLine(b.mark, b.number, title), SourceLine(b.source, b.step)] + front + ReasonLines(reason) + back
  }

  predicate LinksOnly(lines: seq<Line>) {
    forall k :: 0 <= k < |lines| ==> lines[k].LinkLine? || lines[k].Folded?
  }

  function TextLines(text: Option<string>): seq<Line> {
    if text.Some? then [Text(text.value)] else []
  }

  lemma ChunkShows(b: Box, title: string, text: Option<string>, notes: seq<Line>, reason: Option<Note>, back: seq<Line>)
    requires LinksOnly(notes) && LinksOnly(back)
    ensures var c := ChunkLines(b, title, TextLines(text) + notes, reason, back);
      IsChunk(c) && BoxOf(c) == b.(title := title, reason := if text.Some? then ReasonRead(text.value, reason) else reason)
  {
    var front := TextLines(text) + notes;
    var c := ChunkLines(b, title, front, reason, back);
    hide ReasonIn;
    FirstIs(c, 1, if text.Some? && ReasonIn(text.value).Some? then 2 else if reason.Some? then 2 + |front| else |c|);
  }

  lemma DrawnIsChunk(b: Box, s: Step, shown: bool)
    ensures IsChunk(DrawnChunk(b, s, shown))
    ensures BoxOf(DrawnChunk(b, s, shown)) ==
      b.(title := s.title,
         reason := if shown then ReasonRead(s.text, b.reason) else if b.mark != Open then b.reason else None)
  {
    hide ChunkLines, IsChunk, BoxOf;
    var notes := if RunsLoop(s) then [LinkLine(RunsFramework, s.link.value)] else [];
    var reason := if shown || b.mark != Open then b.reason else None;
    if shown {
      ChunkShows(b, s.title, Some(s.text), notes, reason, BackLines(b, s, shown));
    } else {
      assert TextLines(None) + [] == FrontLines(s, shown);
      ChunkShows(b, s.title, None, [], reason, BackLines(b, s, shown));
    }
  }

  // ---- what a block tells the reader

  function TextsIn(lines: seq<Line>): seq<string> {
    if lines == [] then []
    else (match lines[0] case Text(text) => [text] case _ => []) + TextsIn(lines[1..])
  }

  function LinksIn(lines: seq<Line>): seq<(LinkNote, Id)> {
    if lines == [] then []
    else (match lines[0] case LinkLine(what, linked) => [(what, linked)] case _ => []) + LinksIn(lines[1..])
  }

  lemma {:induction false} TextsJoin(a: seq<Line>, b: seq<Line>)
    ensures TextsIn(a + b) == TextsIn(a) + TextsIn(b) && LinksIn(a + b) == LinksIn(a) + LinksIn(b)
  {
    if a == [] {
      assert a + b == b;
    } else {
      assert (a + b)[1..] == a[1..] + b;
      TextsJoin(a[1..], b);
    }
  }

  /** A shown step's block has the step's text, whole and once, and one note if it links; a folded one has neither. */
  ghost predicate BlockTells(block: seq<Line>, s: Step, mark: Mark, shown: bool) {
    && TextsIn(block) == (if shown then [s.text] else [])
    && LinksIn(block) == (if shown && s.link.Some? then [(if s.link.value in FRAMEWORK then RunsFramework else IsInlined, s.link.value)] else [])
    && (Folded in block <==> !shown && mark == Open)
  }

  lemma {:induction false} NoTexts(lines: seq<Line>)
    requires forall k :: 0 <= k < |lines| ==> !lines[k].Text? && !lines[k].LinkLine? && !lines[k].Folded?
    ensures TextsIn(lines) == [] && LinksIn(lines) == [] && Folded !in lines
  {
    if lines != [] {
      NoTexts(lines[1..]);
    }
  }

  lemma TextsOfFour(a: seq<Line>, b: seq<Line>, c: seq<Line>, d: seq<Line>)
    ensures TextsIn(a + b + c + d) == TextsIn(a) + TextsIn(b) + TextsIn(c) + TextsIn(d)
    ensures LinksIn(a + b + c + d) == LinksIn(a) + LinksIn(b) + LinksIn(c) + LinksIn(d)
  {
    hide *;
    TextsJoin(a + b + c, d);
    TextsJoin(a + b, c);
    TextsJoin(a, b);
  }

  lemma ChunkTexts(b: Box, title: string, front: seq<Line>, reason: Option<Note>, back: seq<Line>)
    ensures var c := ChunkLines(b, title, front, reason, back);
      && TextsIn(c) == TextsIn(front) + TextsIn(back) && LinksIn(c) == LinksIn(front) + LinksIn(back)
      && (Folded in c <==> Folded in front || Folded in back)
  {
    var head, mid := [StepLine(b.mark, b.number, title), SourceLine(b.source, b.step)], ReasonLines(reason);
    assert ChunkLines(b, title, front, reason, back) == head + front + mid + back;
    NoTexts(head);
    NoTexts(mid);
    TextsOfFour(head, front, mid, back);
    FoldedInFour(head, front, mid, back);
    DropEmpty(TextsIn(front), TextsIn(back));
    DropEmpty(LinksIn(front), LinksIn(back));
    hide *;
  }

  lemma FoldedInFour(a: seq<Line>, b: seq<Line>, c: seq<Line>, d: seq<Line>)
    ensures Folded in a + b + c + d <==> Folded in a || Folded in b || Folded in c || Folded in d
  {
  }

  lemma OneLine(line: Line)
    ensures TextsIn([line]) == (if line.Text? then [line.text] else [])
    ensures LinksIn([line]) == (if line.LinkLine? then [(line.what, line.linked)] else [])
    ensures TextsIn([]) == [] && LinksIn([]) == []
    ensures Folded in [line] <==> line == Folded
  {
    assert [line][1..] == [];
  }

  lemma FrontTells(s: Step, shown: bool)
    ensures var front := FrontLines(s, shown);
      && TextsIn(front) == (if shown then [s.text] else []) && Folded !in front
      && LinksIn(front) == (if shown && RunsLoop(s) then [(RunsFramework, s.link.value)] else [])
  {
    OneLine(Text(s.text));
    if RunsLoop(s) {
      OneLine(LinkLine(RunsFramework, s.link.value));
      TextsJoin([Text(s.text)], [LinkLine(RunsFramework, s.link.value)]);
    } else {
      TextsJoin([Text(s.text)], []);
    }
    hide TextsIn, LinksIn;
  }

  lemma BackTells(b: Box, s: Step, shown: bool)
    ensures var back := BackLines(b, s, shown);
      && TextsIn(back) == [] && (Folded in back <==> !shown && b.mark == Open)
      && LinksIn(back) == (if shown && s.link.Some? && !RunsLoop(s) then [(IsInlined, s.link.value)] else [])
  {
    OneLine(Folded);
    if s.link.Some? {
      OneLine(LinkLine(IsInlined, s.link.value));
    }
    hide TextsIn, LinksIn;
  }

  lemma DrawnTells(b: Box, s: Step, shown: bool)
    ensures BlockTells(DrawnChunk(b, s, shown), s, b.mark, shown)
  {
    ChunkTexts(b, s.title, FrontLines(s, shown), if shown || b.mark != Open then b.reason else None, BackLines(b, s, shown));
    FrontTells(s, shown);
    BackTells(b, s, shown);
    hide ChunkLines, FrontLines, BackLines, TextsIn, LinksIn;
  }

  /** Written first, a block has its entry's text and one note if the entry is marked. */
  ghost predicate EntryTold(e: Entry, block: seq<Line>) {
    && TextsIn(block) == [e.text] && Folded !in block
    && LinksIn(block) ==
      if e.linked.None? then []
      else if e.framework then [(RunsFramework, e.linked.value)]
      else if e.circular then [(GoesBack, e.linked.value)]
      else if e.inlinedAbove then [(StandsAbove, e.linked.value)] else []
  }

  lemma EntryBox(e: Entry, number: nat)
    ensures IsChunk(EntryChunk(e, number))
    ensures BoxOf(EntryChunk(e, number)) == Box(number, Open, e.title, e.source, e.step, ReasonIn(e.text))
  {
  }

  lemma EntryTells(e: Entry, number: nat)
    ensures EntryTold(e, EntryChunk(e, number))
  {
    var notes := EntryNotes(e);
    ChunkTexts(Box(number, Open, e.title, e.source, e.step, None), e.title, [Text(e.text)] + notes, None, []);
    TextsJoin([Text(e.text)], notes);
    hide ChunkLines;
    assert [Text(e.text)][1..] == [] && (notes != [] ==> notes[1..] == []);
  }

  /** The boxes re-rendered one by one, up to n. */
  function DrawnChunks(lib: Library, boxes: seq<Box>, n: nat): (r: seq<seq<Line>>)
    requires n <= |boxes| && AllInRange(lib, boxes)
    ensures |r| == n
  {
    seq(n, k requires 0 <= k < n =>
      assert InRange(lib, boxes[k]);
      DrawnChunk(boxes[k], Shows(lib, boxes[k]), k < FirstOpen(boxes) + REVEAL))
  }

  lemma DrawnBoxes(lib: Library, boxes: seq<Box>)
    requires AllInRange(lib, boxes)
    ensures var chunks := DrawnChunks(lib, boxes, |boxes|);
      (forall k :: 0 <= k < |chunks| ==> IsChunk(chunks[k])) && BoxesOf(chunks) == Rendered(lib, boxes)
  {
    var chunks := DrawnChunks(lib, boxes, |boxes|);
    forall k | 0 <= k < |chunks|
      ensures IsChunk(chunks[k]) && BoxOf(chunks[k]) == Rendered(lib, boxes)[k]
    {
      assert InRange(lib, boxes[k]);
      DrawnIsChunk(boxes[k], Shows(lib, boxes[k]), k < FirstOpen(boxes) + REVEAL);
    }
  }

  /** Block k tells what the library's step is. */
  ghost predicate Told(lib: Library, boxes: seq<Box>, k: nat, block: seq<Line>)
    requires k < |boxes|
  {
    && InRange(lib, boxes[k])
    && BlockTells(block, Shows(lib, boxes[k]), boxes[k].mark, k < FirstOpen(boxes) + REVEAL)
  }

  /** Re-rendered, every block tells what its step is. */
  lemma DrawnTold(lib: Library, boxes: seq<Box>, k: nat)
    requires AllInRange(lib, boxes) && k < |boxes|
    ensures Told(lib, Rendered(lib, boxes), k, DrawnChunks(lib, boxes, |boxes|)[k])
  {
    hide DrawnChunk, BlockTells, FirstOpen, ReasonRead;
    assert InRange(lib, boxes[k]);
    var after := Rendered(lib, boxes);
    forall m | 0 <= m < |boxes| ensures after[m].mark == boxes[m].mark {
      assert InRange(lib, boxes[m]);
    }
    SameFirstOpen(after, boxes);
    DrawnTells(boxes[k], Shows(lib, boxes[k]), k < FirstOpen(boxes) + REVEAL);
  }

  lemma SameFirstOpen(a: seq<Box>, b: seq<Box>)
    requires |a| == |b| && forall k :: 0 <= k < |a| ==> a[k].mark == b[k].mark
    ensures FirstOpen(a) == FirstOpen(b)
  {
  }

  /** The file cut where chunk k starts. */
  lemma CutAtChunk(lay: Layout, k: nat)
    requires k <= |lay.chunks|
    ensures Offset(lay, k) <= |LinesOf(lay)|
    ensures LinesOf(lay)[..Offset(lay, k)] == lay.head + Join(lay.chunks[..k])
    ensures LinesOf(lay)[Offset(lay, k)..] == Join(lay.chunks[k..]) + lay.footer
  {
    JoinConcat(lay.chunks[..k], lay.chunks[k..]);
    assert lay.chunks == lay.chunks[..k] + lay.chunks[k..];
    assert LinesOf(lay) == (lay.head + Join(lay.chunks[..k])) + (Join(lay.chunks[k..]) + lay.footer);
  }

  function SplicedLayout(lay: Layout, i: nat, j: nat, mid: seq<seq<Line>>): Layout
    requires i <= j <= |lay.chunks|
  {
    lay.(chunks := lay.chunks[..i] + mid + lay.chunks[j..])
  }

  lemma WholeSpliced(lay: Layout, mid: seq<seq<Line>>)
    ensures SplicedLayout(lay, 0, |lay.chunks|, mid) == lay.(chunks := mid)
  {
    assert lay.chunks[..0] + mid + lay.chunks[|lay.chunks|..] == mid;
  }

  /** Replacing lines from one chunk's start to another's replaces those chunks. */
  lemma SplicedLines(lay: Layout, i: nat, j: nat, mid: seq<seq<Line>>)
    requires i <= j <= |lay.chunks|
    ensures Offset(lay, i) <= |LinesOf(lay)| && Offset(lay, j) <= |LinesOf(lay)|
    ensures LinesOf(lay)[..Offset(lay, i)] + Join(mid) + LinesOf(lay)[Offset(lay, j)..]
      == LinesOf(SplicedLayout(lay, i, j, mid))
  {
    hide Join, Offset;
    CutAtChunk(lay, i);
    CutAtChunk(lay, j);
    JoinConcat(lay.chunks[..i] + mid, lay.chunks[j..]);
    JoinConcat(lay.chunks[..i], mid);
    var a, b, c := Join(lay.chunks[..i]), Join(mid), Join(lay.chunks[j..]);
    Regroup4(lay.head, a, b, c);
    Regroup(lay.head + a + b, c, lay.footer);
  }

  lemma SplicedBoxes(lay: Layout, i: nat, j: nat, mid: seq<seq<Line>>)
    requires WellFormed(lay) && i <= j <= |lay.chunks| && forall k :: 0 <= k < |mid| ==> IsChunk(mid[k])
    ensures WellFormed(SplicedLayout(lay, i, j, mid))
    ensures BoxesOf(SplicedLayout(lay, i, j, mid).chunks) == BoxesOf(lay.chunks)[..i] + BoxesOf(mid) + BoxesOf(lay.chunks)[j..]
  {
    hide IsChunk, BoxOf;
    var chunks := lay.chunks[..i] + mid + lay.chunks[j..];
    forall k | 0 <= k < |chunks| ensures IsChunk(chunks[k]) {
      if k >= i + |mid| {
        assert chunks[k] == lay.chunks[k - i - |mid| + j];
      }
    }
  }

  /** The blocks carry what the boxes show. */
  lemma BlockShows(lay: Layout, k: nat)
    requires WellFormed(lay) && k < |lay.chunks|
    ensures var b, box := Blocks(lay, |lay.chunks|)[k], BoxesOf(lay.chunks)[k];
      && b.number == box.number && b.mark == box.mark && b.title == box.title
      && b.source == Some(box.source) && b.step == box.step
      && b.first == Offset(lay, k) && b.end == Offset(lay, k + 1) <= |LinesOf(lay)| && b.first <= b.end
      && LinesOf(lay)[b.first..b.end] == lay.chunks[k]
  {
    LinesAround(lay, k);
    assert IsChunk(lay.chunks[k]);
  }

  lemma EmptyJoin()
    ensures Join([]) == []
  {
  }

  lemma JoinSingle(c: seq<Line>)
    ensures Join([c]) == c
  {
    assert Join([c]) == c + Join([]);
  }

  lemma JoinOne(chunks: seq<seq<Line>>, c: seq<Line>)
    ensures Join(chunks + [c]) == Join(chunks) + c
  {
    JoinConcat(chunks, [c]);
    assert Join([c]) == c + Join([]);
  }

  lemma ReadsBox(c: seq<Line>)
    requires IsChunk(c)
    ensures BoxOf(c).reason == if FirstReason(c) < |c| then NoteOf(c[FirstReason(c)]) else None
  {
  }

  /** The blocks of a freshly opened window. */
  method OpenBody(chosen: seq<Entry>) returns (body: seq<Line>, ghost chunks: seq<seq<Line>>)
    ensures body == Join(chunks) && |chunks| == |chosen|
    ensures forall k :: 0 <= k < |chosen| ==> chunks[k] == EntryChunk(chosen[k], k + 1)
  {
    hide Join, IsChunk, BoxOf;
    body, chunks := [], [];
    EmptyJoin();
    for i := 0 to |chosen|
      invariant |chunks| == i && body == Join(chunks)
      invariant forall k :: 0 <= k < i ==> chunks[k] == EntryChunk(chosen[k], k + 1)
    {
      var c := EntryChunk(chosen[i], i + 1);
      JoinOne(chunks, c);
      body := body + c;
      chunks := chunks + [c];
    }
  }

  /** The step an edit answers with, found by the title it now has. */
  lemma EditedText(lib: Library, id: Id, title: string, change: StepChange)
    requires PS.Effect(lib, PS.ChangeStep(id, title, change)).Some?
    ensures id in lib && id in PS.Effect(lib, PS.ChangeStep(id, title, change)).value && FindTitle(lib[id], title) < |lib[id]|
    ensures var d := PS.Effect(lib, PS.ChangeStep(id, title, change)).value[id];
      var marker := if change.title.Some? then change.title.value else title;
      FindTitle(d, marker) < |d| && d[FindTitle(d, marker)].text == Changed(lib[id][FindTitle(lib[id], title)], change).text
    ensures forall was: Step :: was.title == title ==> Changed(was, change).title == if change.title.Some? then change.title.value else title
  {
    hide PS.NewLinkAllowed;
    var i := FindTitle(lib[id], title);
    var d := PS.Effect(lib, PS.ChangeStep(id, title, change)).value[id];
    assert d == lib[id][i := Changed(lib[id][i], change)];
    FindUnique(d, i);
  }

  datatype Located = Located(index: nat, block: Block, title: string)

  class Walk {
    var lines: seq<Line>
    ghost var lay: Layout

    ghost predicate Valid()
      reads this
    {
      WellFormed(lay) && lines == LinesOf(lay)
    }

    ghost function View(): seq<Box>
      reads this
      requires Valid()
    {
      BoxesOf(lay.chunks)
    }

    /** The lines from the step line of box k to the next one's. */
    ghost function BlockLines(k: nat): (block: seq<Line>)
      reads this
      requires Valid() && k < |View()|
      ensures block == lay.chunks[k]
    {
      LinesAround(lay, k);
      lines[Offset(lay, k)..Offset(lay, k + 1)]
    }

    /** Every block tells what the library's step is, as far as the library has the steps. */
    ghost predicate Tells(lib: Library)
      reads this
      requires Valid()
    {
      AllInRange(lib, View()) ==> forall k :: 0 <= k < |View()| ==> Told(lib, View(), k, BlockLines(k))
    }

    constructor (head: seq<Line>, chosen: seq<Entry>, footer: seq<Line>)
      requires NoStepLine(head) && NoStepLine(footer) && (footer != [] ==> footer[0].Continues?)
      ensures Valid()
      ensures View() == seq(|chosen|, i requires 0 <= i < |chosen| =>
        Box(i + 1, Open, chosen[i].title, chosen[i].source, chosen[i].step, ReasonIn(chosen[i].text)))
      ensures forall k :: 0 <= k < |chosen| ==> EntryTold(chosen[k], BlockLines(k))
      ensures lay.head == head && lay.footer == footer
    {
      hide EntryTold, EntryChunk, Join;
      var body, chunks := OpenBody(chosen);
      forall k | 0 <= k < |chosen|
        ensures EntryTold(chosen[k], chunks[k]) && IsChunk(chunks[k])
        ensures BoxOf(chunks[k]) == Box(k + 1, Open, chosen[k].title, chosen[k].source, chosen[k].step, ReasonIn(chosen[k].text))
      {
        EntryTells(chosen[k], k + 1);
        EntryBox(chosen[k], k + 1);
      }
      lines := head + body + footer;
      lay := Layout(head, chunks, footer);
    }

    /** The boxes in the file, as the reader finds them. */
    method ReadBlocks() returns (blocks: seq<Block>)
      requires Valid()
      ensures blocks == Blocks(lay, |lay.chunks|) && |blocks| == |View()|
    {
      blocks := WalkBlocks(lines, lay);
    }

    /** Puts other blocks where the blocks i to j - 1 are. */
    method ReplaceBlocks(first: nat, end: nat, body: seq<Line>, ghost i: nat, ghost j: nat, ghost mid: seq<seq<Line>>)
      requires Valid() && i <= j <= |lay.chunks| && first == Offset(lay, i) && end == Offset(lay, j)
      requires body == Join(mid) && forall k :: 0 <= k < |mid| ==> IsChunk(mid[k])
      requires first <= |lines| && end <= |lines|
      modifies this
      ensures Valid() && lay == SplicedLayout(old(lay), i, j, mid)
      ensures View() == old(View())[..i] + BoxesOf(mid) + old(View())[j..]
    {
      hide IsChunk, BoxOf, BoxesOf, Join, LinesOf, Offset, WellFormed, SplicedLayout, NoStepLine;
      SplicedLines(lay, i, j, mid);
      SplicedBoxes(lay, i, j, mid);
      lines := lines[..first] + body + lines[end..];
      lay := SplicedLayout(lay, i, j, mid);
    }

    /** Re-renders the walk from the library; a source step that is gone leaves the file as it is. */
    method Render(lib: Library) returns (next: Option<nat>)
      requires Valid()
      modifies this
      ensures Valid() && View() == Rendered(lib, old(View()))
      ensures Tells(lib) && lay.head == old(lay.head) && lay.footer == old(lay.footer)
      ensures next.Some? <==> AllInRange(lib, old(View())) && FirstOpen(old(View())) < |old(View())|
      ensures next.Some? ==> next.value == old(View())[FirstOpen(old(View()))].number
    {
      hide IsChunk, BoxOf, Join, LinesOf, Offset, Blocks, DrawnChunks, FirstOpen, NoStepLine, Tells, SplicedLayout, Rendered, WellFormed;
      ghost var boxes := View();
      var blocks := ReadBlocks();
      if blocks == [] {
        UnchangedTells(lib);
        return None;
      }
      var known := CheckSources(lib, blocks);
      if !known {
        UnchangedTells(lib);
        return None;
      }
      var open := FirstOpenBlock(blocks);
      var body, drawn := DrawBody(lib, blocks, open);
      DrawnBoxes(lib, boxes);
      BlockShows(lay, 0);
      BlockShows(lay, |blocks| - 1);
      if open < |blocks| {
        BlockShows(lay, open);
      }
      WholeSpliced(lay, drawn);
      ReplaceBlocks(blocks[0].first, blocks[|blocks| - 1].end, body, 0, |blocks|, drawn);
      RenderedTells(lib, boxes, drawn);
      next := if open < |blocks| then Some(blocks[open].number) else None;
    }

    lemma RenderedTells(lib: Library, boxes: seq<Box>, drawn: seq<seq<Line>>)
      requires Valid() && AllInRange(lib, boxes) && View() == Rendered(lib, boxes) && lay.chunks == drawn
      requires drawn == DrawnChunks(lib, boxes, |boxes|)
      ensures Tells(lib)
    {
      hide Told, DrawnChunks, WellFormed, Rendered, LinesOf;
      forall k | 0 <= k < |View()| ensures Told(lib, View(), k, BlockLines(k)) {
        DrawnTold(lib, boxes, k);
      }
    }

    lemma UnchangedTells(lib: Library)
      requires Valid() && (View() == [] || !AllInRange(lib, View()))
      ensures Tells(lib) && Rendered(lib, View()) == View()
    {
    }

    method FirstOpenBlock(blocks: seq<Block>) returns (open: nat)
      requires Valid() && blocks == Blocks(lay, |lay.chunks|)
      ensures open == FirstOpen(View())
    {
      hide IsChunk, BoxOf, Join, LinesOf, Offset, Blocks, NoStepLine;
      open := 0;
      while open < |blocks| && blocks[open].mark != Open
        invariant open <= |blocks|
        invariant forall k :: 0 <= k < open ==> View()[k].mark != Open
      {
        BlockShows(lay, open);
        open := open + 1;
      }
      if open < |blocks| {
        BlockShows(lay, open);
      }
    }

    /** The re-rendered blocks, each from its source step and the first reason its old lines carry. */
    method DrawBody(lib: Library, blocks: seq<Block>, open: nat) returns (body: seq<Line>, ghost drawn: seq<seq<Line>>)
      requires Valid() && blocks == Blocks(lay, |lay.chunks|) && AllInRange(lib, View()) && open == FirstOpen(View())
      ensures drawn == DrawnChunks(lib, View(), |View()|) && body == Join(drawn)
    {
      hide IsChunk, BoxOf, Join, LinesOf, Offset, Blocks, FirstOpen, NoStepLine, DrawnChunk;
      body, drawn := [], [];
      EmptyJoin();
      for i := 0 to |blocks|
        invariant drawn == DrawnChunks(lib, View(), i) && body == Join(drawn)
      {
        BlockShows(lay, i);
        ReadsBox(lay.chunks[i]);
        assert InRange(lib, View()[i]);
        var b := blocks[i];
        var text := lines[b.first..b.end];
        var r := FirstReason(text);
        var box := Box(b.number, b.mark, b.title, b.source.value, b.step, if r < |text| then NoteOf(text[r]) else None);
        var c := DrawnChunk(box, lib[b.source.value][b.step - 1], i < open + REVEAL);
        JoinOne(drawn, c);
        drawn := drawn + [c];
        body := body + c;
      }
    }

    method CheckSources(lib: Library, blocks: seq<Block>) returns (ok: bool)
      requires Valid() && blocks == Blocks(lay, |lay.chunks|)
      ensures ok <==> AllInRange(lib, View())
    {
      for i := 0 to |blocks|
        invariant forall k :: 0 <= k < i ==> InRange(lib, View()[k])
      {
        BlockShows(lay, i);
        var b := blocks[i];
        if b.source.value !in lib || !(1 <= b.step <= |lib[b.source.value]|) {
          assert !InRange(lib, View()[i]);
          return false;
        }
      }
      return true;
    }

    method FindBlock(blocks: seq<Block>, number: int) returns (i: nat)
      requires Valid() && blocks == Blocks(lay, |lay.chunks|)
      ensures i == IndexOf(View(), number)
    {
      hide IsChunk, BoxOf, Join, LinesOf, Offset, Blocks, NoStepLine;
      i := 0;
      while i < |blocks| && blocks[i].number != number
        invariant i <= |blocks|
        invariant forall k :: 0 <= k < i ==> View()[k].number != number
      {
        BlockShows(lay, i);
        i := i + 1;
      }
      if i < |blocks| {
        BlockShows(lay, i);
      }
    }

    method NumbersPresent(blocks: seq<Block>, asked: set<int>) returns (ok: bool)
      requires Valid() && blocks == Blocks(lay, |lay.chunks|)
      ensures ok <==> forall n :: n in asked ==> HasNumber(View(), n)
    {
      var left := asked;
      while left != {}
        invariant left <= asked && forall n :: n in asked - left ==> HasNumber(View(), n)
      {
        assert (forall n :: n !in left) ==> left == {};
        var n :| n in left;
        var i := FindBlock(blocks, n);
        if i == |blocks| {
          assert !HasNumber(View(), n);
          return false;
        }
        left := left - {n};
      }
      return true;
    }

    /** None: refused, nothing written. Otherwise the numbers still open, in file order. */
    method Tick(lib: Library, call: TickCall) returns (left: Option<seq<int>>)
      requires Valid()
      modifies this
      ensures Valid()
      ensures left.Some? <==> TickAccepted(old(View()), call)
      ensures View() == if left.Some? then Rendered(lib, Ticked(old(View()), call)) else old(View())
      ensures left.Some? ==> Tells(lib)
      ensures left.Some? ==> forall n :: n in left.value <==> n in OpenNumbers(View())
    {
      hide IsChunk, BoxOf, Join, LinesOf, Offset, Blocks, FirstOpen, NoStepLine, ChangeAll, Rendered, Tells;
      if call.done + call.skip == {} || call.done * call.skip != {} {
        return None;
      }
      if call.skip != {} && (call.because == "" || !call.isReason) {
        return None;
      }
      if call.done != {} && call.note == "" {
        return None;
      }
      var blocks := ReadBlocks();
      var bulk := |call.skip| > 1 || |call.done| > TICK_AT_ONCE;
      if bulk || blocks != [] {
        if call.plan.None? || !(call.done + call.skip <= call.plan.value) {
          return None;
        }
      }
      var present := NumbersPresent(blocks, call.done + call.skip);
      if !present {
        return None;
      }
      assert blocks != [] by {
        assert (forall n :: n !in call.done + call.skip) ==> call.done + call.skip == {};
        var n :| n in call.done + call.skip;
        assert HasNumber(View(), n);
      }
      var op := Ticking(call);
      ChangeLayout(op, lay);
      ChangedLayout(op, lay);
      lines := ChangeLines(op, lines);
      lay := MapLayout(op, lay);
      assert View() == Ticked(old(View()), call);
      var next := Render(lib);
      var open := OpenSteps();
      left := Some(open);
    }

    method OpenSteps() returns (numbers: seq<int>)
      requires Valid()
      ensures forall n :: n in numbers <==> n in OpenNumbers(View())
    {
      hide IsChunk, BoxOf, Join, LinesOf, Offset, Blocks, NoStepLine;
      var blocks := ReadBlocks();
      numbers := [];
      for i := 0 to |blocks|
        invariant forall n :: n in numbers <==> n in OpenNumbers(View()[..i])
      {
        BlockShows(lay, i);
        assert blocks[i].mark == View()[i].mark && blocks[i].number == View()[i].number;
        if blocks[i].mark == Open {
          numbers := numbers + [blocks[i].number];
        }
      }
    }

    /** The step of the library a walk number stands for, by source and title; None when either is gone. */
    method Locate(lib: Library, number: int) returns (r: Option<Located>)
      requires Valid()
      ensures r.Some? <==> Stands(lib, View(), number)
      ensures r.Some? ==> r.value.index == IndexOf(View(), number) < |lay.chunks|
      ensures r.Some? ==> r.value.block == Blocks(lay, |lay.chunks|)[r.value.index]
      ensures r.Some? ==> InRange(lib, View()[r.value.index]) && r.value.title == Shows(lib, View()[r.value.index]).title
    {
      var blocks := ReadBlocks();
      var i := FindBlock(blocks, number);
      if i == |blocks| {
        return None;
      }
      BlockShows(lay, i);
      var b := blocks[i];
      if b.source.value !in lib || !(1 <= b.step <= |lib[b.source.value]|) {
        return None;
      }
      return Some(Located(i, b, lib[b.source.value][b.step - 1].title));
    }

    ghost predicate Leaves(before: State, c: Command, lib: Library, ok: bool)
      reads this
      requires Valid()
    {
      var after := WalkView.After(before, c);
      (ok <==> after.Some?) && State(lib, View()) == if ok then after.value else before
    }

    /** Edits the step a box shows: the change goes to the procedure, and the block is written afresh. */
    method EditStep(store: PS.Store, number: int, change: StepChange) returns (ok: bool)
      requires Valid()
      modifies this, store
      ensures Valid() && Leaves(State(old(store.docs), old(View())), EditAt(number, change), store.docs, ok)
      ensures ok ==> Tells(store.docs)
    {
      hide IsChunk, BoxOf, Join, LinesOf, Offset, Blocks, FirstOpen, NoStepLine, Rendered, PS.Effect, WellFormed, IndexOf, Tells, StepChunk, ReasonIn,
        OneChanged, Lands, OneRemoved, BatchRefused, DocumentEdits.EditStep, DocumentEdits.RemoveStep;
      ghost var s := State(store.docs, View());
      var at := Locate(store.docs, number);
      if at.None? {
        return false;
      }
      var Located(i, b, title) := at.value;
      BlockShows(lay, i);
      var failed := store.ChangeStep(b.source.value, title, change);
      if failed.Some? {
        return false;
      }
      PS.KeepsDocument(s.lib, WritesThrough(s, EditAt(number, change)));
      EditedText(s.lib, b.source.value, title, change);
      hide Changed, FindTitle;
      var marker := if change.title.Some? then change.title.value else title;
      var d := store.docs[b.source.value];
      var text := if FindTitle(d, marker) < |d| then d[FindTitle(d, marker)].text else "";
      var c := StepChunk(number, b.mark, b.source.value, b.step, marker, text, []);
      JoinSingle(c);
      ReplaceBlocks(b.first, b.end, c, i, i + 1, [c]);
      EditedBoxes(s, number, change, View());
      var next := Render(store.docs);
      ok := true;
    }

    /** Adds a step after the one a box shows: later source lines of the procedure move on, later numbers follow. */
    method AddStep(store: PS.Store, number: int, step: Step) returns (ok: bool)
      requires Valid()
      modifies this, store
      ensures Valid() && Leaves(State(old(store.docs), old(View())), AddAfter(number, step), store.docs, ok)
      ensures ok ==> Tells(store.docs)
    {
      hide IsChunk, BoxOf, Join, LinesOf, Offset, Blocks, FirstOpen, NoStepLine, Rendered, PS.Effect, WellFormed, IndexOf, Tells, StepChunk, ReasonIn,
        OneChanged, Lands, OneRemoved, BatchRefused, DocumentEdits.EditStep, DocumentEdits.RemoveStep;
      ghost var s := State(store.docs, View());
      var at := Locate(store.docs, number);
      if at.None? {
        return false;
      }
      var Located(i, b, title) := at.value;
      BlockShows(lay, i);
      var failed := store.AddSteps(b.source.value, [step], Some(title));
      if failed.Some? {
        return false;
      }
      MoveSteps(b.source.value, b.step, 1);
      ShiftedBoxes(s.boxes, i, View());
      var c := StepChunk(b.number + 1, Open, b.source.value, b.step + 1, step.title, step.text, []);
      JoinSingle(c);
      ReplaceBlocks(b.end, b.end, c, i + 1, i + 1, [c]);
      AddedBoxes(s, number, step, View());
      NumberSteps();
      var next := Render(store.docs);
      ok := true;
    }

    /** Removes the step a box shows, from its procedure and from the walk. */
    method RemoveStep(store: PS.Store, number: int) returns (ok: bool)
      requires Valid()
      modifies this, store
      ensures Valid() && Leaves(State(old(store.docs), old(View())), RemoveAt(number), store.docs, ok)
      ensures ok ==> Tells(store.docs)
    {
      hide IsChunk, BoxOf, Join, LinesOf, Offset, Blocks, FirstOpen, NoStepLine, Rendered, PS.Effect, WellFormed, IndexOf, Tells, StepChunk, ReasonIn,
        OneChanged, Lands, OneRemoved, BatchRefused, DocumentEdits.EditStep, DocumentEdits.RemoveStep;
      ghost var s := State(store.docs, View());
      var at := Locate(store.docs, number);
      if at.None? {
        return false;
      }
      var Located(i, b, title) := at.value;
      BlockShows(lay, i);
      var failed := store.RemoveOne(b.source.value, title);
      if failed.Some? {
        return false;
      }
      EmptyJoin();
      ReplaceBlocks(b.first, b.end, [], i, i + 1, []);
      MoveSteps(b.source.value, b.step, -1);
      RemovedBoxes(s, number, View());
      NumberSteps();
      var next := Render(store.docs);
      ok := true;
    }

    /** Every source line of a later step of the procedure moves by one; no line comes or goes. */
    method MoveSteps(source: Id, step: nat, delta: int)
      requires Valid() && (delta == 1 || delta == -1)
      modifies this
      ensures Valid() && |View()| == |old(View())| && |lines| == |old(lines)|
      ensures forall k :: 0 <= k < |View()| ==> View()[k] == ChangedBox(Moving(source, step, delta), old(View())[k])
      ensures forall k :: 0 <= k <= |View()| ==> Offset(lay, k) == Offset(old(lay), k)
    {
      hide IsChunk, BoxOf, Join, LinesOf, Offset, ChangeAll, NoStepLine;
      var op := Moving(source, step, delta);
      ChangeLayout(op, lay);
      ChangedLayout(op, lay);
      MovedOffsets(op, lay);
      lines := ChangeLines(op, lines);
      lay := MapLayout(op, lay);
    }

    method NumberSteps()
      requires Valid()
      modifies this
      ensures Valid() && View() == Renumbered(old(View()))
    {
      RenumberLayout(lay);
      lines := Renumber(lines);
      lay := NumberLayout(lay);
    }
  }

  lemma EditedBoxes(s: State, number: int, change: StepChange, boxes: seq<Box>)
    requires Stands(s.lib, s.boxes, number)
    requires var i := IndexOf(s.boxes, number);
      var b := s.boxes[i];
      boxes == s.boxes[..i]
        + [b.(title := Changed(Shows(s.lib, b), change).title, reason := ReasonIn(Changed(Found(s.lib, b), change).text))]
        + s.boxes[i + 1..]
    ensures boxes == Rewritten(s, EditAt(number, change))
  {
    var i := IndexOf(s.boxes, number);
    assert i < |s.boxes|;
    hide IndexOf, Stands, Changed, ReasonIn, Found;
  }

  lemma ShiftedBoxes(boxes: seq<Box>, i: nat, moved: seq<Box>)
    requires i < |boxes| && |moved| == |boxes|
    requires forall k :: 0 <= k < |boxes| ==> moved[k] == ChangedBox(Moving(boxes[i].source, boxes[i].step, 1), boxes[k])
    ensures moved == ShiftAll(boxes, boxes[i], 1)
  {
  }

  lemma AddedBoxes(s: State, number: int, step: Step, boxes: seq<Box>)
    requires Stands(s.lib, s.boxes, number)
    requires var i := IndexOf(s.boxes, number);
      var b := s.boxes[i];
      var moved := ShiftAll(s.boxes, b, 1);
      boxes == moved[..i + 1] + [Box(b.number + 1, Open, step.title, b.source, b.step + 1, ReasonIn(step.text))] + moved[i + 1..]
    ensures Renumbered(boxes) == Rewritten(s, AddAfter(number, step))
  {
    hide IndexOf, ReasonIn, ShiftAll, Renumbered;
  }

  /** The boxes without the one stood on, later steps moved, are what the view's removal numbers. */
  lemma RemovedBoxes(s: State, number: int, moved: seq<Box>)
    requires Stands(s.lib, s.boxes, number) && |moved| == |s.boxes| - 1
    requires var i := IndexOf(s.boxes, number);
      forall k :: 0 <= k < |moved| ==>
        moved[k] == ChangedBox(Moving(s.boxes[i].source, s.boxes[i].step, -1), (s.boxes[..i] + s.boxes[i + 1..])[k])
    ensures Renumbered(moved) == Rewritten(s, RemoveAt(number))
  {
    var i := IndexOf(s.boxes, number);
    assert i < |s.boxes|;
    hide IndexOf, Stands, ChangedBox, Shifted;
    ShiftedApart(s.boxes, i, moved);
  }

  lemma ShiftedApart(boxes: seq<Box>, i: nat, moved: seq<Box>)
    requires i < |boxes| && |moved| == |boxes| - 1
    requires forall k :: 0 <= k < |moved| ==>
      moved[k] == ChangedBox(Moving(boxes[i].source, boxes[i].step, -1), (boxes[..i] + boxes[i + 1..])[k])
    ensures var shifted := ShiftAll(boxes, boxes[i], -1); moved == shifted[..i] + shifted[i + 1..]
  {
    var at := boxes[i];
    var shifted := ShiftAll(boxes, at, -1);
    forall k | 0 <= k < |moved| ensures moved[k] == shifted[if k < i then k else k + 1] {
      assert (boxes[..i] + boxes[i + 1..])[k] == boxes[if k < i then k else k + 1];
    }
    hide ChangedBox, Shifted, ShiftAll;
  }

  lemma {:induction false} MovedLength(op: LineOp, lines: seq<Line>)
    requires op.Moving? && OpOk(op)
    ensures |ChangeAll(op, lines)| == |lines|
  {
    if lines != [] {
      MovedLength(op, lines[1..]);
    }
  }

  lemma MovedOffsets(op: LineOp, lay: Layout)
    requires op.Moving? && OpOk(op)
    ensures |LinesOf(MapLayout(op, lay))| == |LinesOf(lay)|
    ensures forall k :: 0 <= k <= |lay.chunks| ==> Offset(MapLayout(op, lay), k) == Offset(lay, k)
  {
    ChangeLayout(op, lay);
    MovedLength(op, LinesOf(lay));
    MovedLength(op, lay.head);
    forall k | 0 <= k <= |lay.chunks| ensures Offset(MapLayout(op, lay), k) == Offset(lay, k) {
      ChangeJoin(op, lay.chunks[..k]);
      assert MapChunks(op, lay.chunks)[..k] == MapChunks(op, lay.chunks[..k]);
      MovedLength(op, Join(lay.chunks[..k]));
    }
  }
}
