/**
 The walk file as its lines, and how it is read: blocks start at step lines and end where the next one, the
 footer or the file does. Blank lines are not represented; nothing that reads the file looks at them.
 */
module WalkLines {
  import opened Outcomes
  import opened LinkGraph
  import opened Marks
  import opened WalkView

  /** What a walk says of a step's link: it runs one of the loop's own procedures, goes back to one the step stands inside
      of, to one inlined above, or to one inlined somewhere in this walk. */
  datatype LinkNote = RunsFramework | GoesBack | StandsAbove | IsInlined

  datatype Line =
    | StepLine(mark: Mark, number: nat, title: string)
    | SourceLine(source: Id, step: nat)
    | ReasonLine(note: Note)
    | Continues(text: string)
    | Text(text: string)
    | LinkLine(what: LinkNote, linked: Id)
    | Folded

  /** The reason the line is read as. */
  function NoteOf(line: Line): Option<Note> {
    match line
    case ReasonLine(note) => Some(note)
    case Text(text) => ReasonIn(text)
    case _ => None
  }

  /** first and end are line indices; source is None until a source line is met. */
  datatype Block = Block(number: nat, mark: Mark, title: string, first: nat, end: nat, source: Option<Id>, step: nat)

  /** What a file is made of: the lines before the first step, one chunk per step, the footer. */
  datatype Layout = Layout(head: seq<Line>, chunks: seq<seq<Line>>, footer: seq<Line>)

  predicate NoStepLine(lines: seq<Line>) {
    forall k :: 0 <= k < |lines| ==> !lines[k].StepLine?
  }

  function FirstSource(c: seq<Line>): (i: nat)
    ensures i <= |c| && (i < |c| ==> c[i].SourceLine?) && forall k :: 0 <= k < i ==> !c[k].SourceLine?
  {
    if c == [] || c[0].SourceLine? then 0 else
    var i := FirstSource(c[1..]);
    assert forall k :: 0 < k <= i && k < |c| ==> c[k] == c[1..][k - 1];
    1 + i
  }

  function FirstReason(c: seq<Line>): (i: nat)
    ensures i <= |c| && (i < |c| ==> NoteOf(c[i]).Some?) && forall k :: 0 <= k < i ==> NoteOf(c[k]).None?
  {
    if c == [] || NoteOf(c[0]).Some? then 0 else
    var i := FirstReason(c[1..]);
    assert forall k :: 0 < k <= i && k < |c| ==> c[k] == c[1..][k - 1];
    1 + i
  }

  /** A step line and nothing under it that starts another block or the footer; nested walks have no source lines. */
  predicate IsBlock(c: seq<Line>) {
    && c != [] && c[0].StepLine?
    && forall k :: 0 < k < |c| ==> !c[k].StepLine? && !c[k].Continues?
  }

  /** A block of a flat walk: its source is under the step line. */
  predicate IsChunk(c: seq<Line>) {
    IsBlock(c) && FirstSource(c) < |c|
  }

  /** A walk file of either kind. */
  predicate Readable(lay: Layout) {
    && NoStepLine(lay.head) && NoStepLine(lay.footer) && (lay.footer != [] ==> lay.footer[0].Continues?)
    && (forall k :: 0 <= k < |lay.chunks| ==> IsBlock(lay.chunks[k]))
    && (FirstSource(lay.footer) < |lay.footer| ==> lay.chunks == [] || IsChunk(lay.chunks[|lay.chunks| - 1]))
  }

  /** A flat walk file. */
  predicate WellFormed(lay: Layout) {
    && NoStepLine(lay.head) && NoStepLine(lay.footer) && (lay.footer != [] ==> lay.footer[0].Continues?)
    && forall k :: 0 <= k < |lay.chunks| ==> IsChunk(lay.chunks[k])
  }

  function Join(chunks: seq<seq<Line>>): seq<Line> {
    if chunks == [] then [] else chunks[0] + Join(chunks[1..])
  }

  function LinesOf(lay: Layout): seq<Line> {
    lay.head + Join(lay.chunks) + lay.footer
  }

  /** Where chunk k starts in the file. */
  function Offset(lay: Layout, k: nat): nat
    requires k <= |lay.chunks|
  {
    |lay.head| + |Join(lay.chunks[..k])|
  }

  function BoxOf(c: seq<Line>): Box
    requires IsChunk(c)
  {
    var s, r := c[FirstSource(c)], FirstReason(c);
    Box(c[0].number, c[0].mark, c[0].title, s.source, s.step, if r < |c| then NoteOf(c[r]) else None)
  }

  function BoxesOf(chunks: seq<seq<Line>>): (boxes: seq<Box>)
    requires forall k :: 0 <= k < |chunks| ==> IsChunk(chunks[k])
    ensures |boxes| == |chunks| && forall k :: 0 <= k < |chunks| ==> boxes[k] == BoxOf(chunks[k])
  {
    seq(|chunks|, k requires 0 <= k < |chunks| => BoxOf(chunks[k]))
  }

  lemma {:induction false} JoinConcat(a: seq<seq<Line>>, b: seq<seq<Line>>)
    ensures Join(a + b) == Join(a) + Join(b)
  {
    if a == [] {
      assert a + b == b;
    } else {
      assert (a + b)[1..] == a[1..] + b;
      JoinConcat(a[1..], b);
    }
  }

  /** The file around chunk k. */
  lemma LinesAround(lay: Layout, k: nat)
    requires k < |lay.chunks|
    ensures Offset(lay, k) + |lay.chunks[k]| == Offset(lay, k + 1)
    ensures LinesOf(lay) == (lay.head + Join(lay.chunks[..k])) + lay.chunks[k] + (Join(lay.chunks[k + 1..]) + lay.footer)
    ensures Offset(lay, k + 1) <= |LinesOf(lay)|
    ensures LinesOf(lay)[Offset(lay, k)..Offset(lay, k + 1)] == lay.chunks[k]
    ensures LinesOf(lay)[..Offset(lay, k)] == lay.head + Join(lay.chunks[..k])
    ensures LinesOf(lay)[Offset(lay, k + 1)..] == Join(lay.chunks[k + 1..]) + lay.footer
  {
    var chunks := lay.chunks;
    assert chunks == chunks[..k] + [chunks[k]] + chunks[k + 1..];
    JoinConcat(chunks[..k] + [chunks[k]], chunks[k + 1..]);
    JoinConcat(chunks[..k], [chunks[k]]);
    assert chunks[..k + 1] == chunks[..k] + [chunks[k]];
    assert Join([chunks[k]]) == chunks[k] + Join([]);
  }

  /** The reader's state after one more line; n is the number of lines in the file. */
  function Feed(blocks: seq<Block>, line: Line, i: nat, n: nat): seq<Block> {
    match line
    case StepLine(mark, number, title) =>
      (if blocks == [] then [] else blocks[|blocks| - 1 := blocks[|blocks| - 1].(end := i)])
      + [Block(number, mark, title, i, n, None, 0)]
    case SourceLine(source, step) =>
      if blocks != [] && blocks[|blocks| - 1].source == None
      then blocks[|blocks| - 1 := blocks[|blocks| - 1].(source := Some(source), step := step)] else blocks
    case _ => blocks
  }

  function Fed(lines: seq<Line>, i: nat): seq<Block>
    requires i <= |lines|
  {
    if i == 0 then [] else Feed(Fed(lines, i - 1), lines[i - 1], i - 1, |lines|)
  }

  /** The block of a chunk that starts at `off`, when the reader has seen t of its lines. */
  function Half(c: seq<Line>, off: nat, t: nat, n: nat): Block
    requires IsBlock(c)
  {
    var at := FirstSource(c);
    Block(c[0].number, c[0].mark, c[0].title, off, n,
          if at < t && at < |c| then Some(c[at].source) else None, if at < t && at < |c| then c[at].step else 0)
  }

  function Whole(c: seq<Line>, off: nat): Block
    requires IsBlock(c)
  {
    Half(c, off, |c|, off + |c|)
  }

  /** The finished blocks of the first k chunks. */
  function Blocks(lay: Layout, k: nat): (blocks: seq<Block>)
    requires Readable(lay) && k <= |lay.chunks|
    ensures |blocks| == k
  {
    seq(k, m requires 0 <= m < k => Whole(lay.chunks[m], Offset(lay, m)))
  }

  lemma FeedWithin(blocks: seq<Block>, c: seq<Line>, off: nat, t: nat, n: nat)
    requires IsBlock(c) && 0 < t < |c|
    ensures Feed(blocks + [Half(c, off, t, n)], c[t], off + t, n) == blocks + [Half(c, off, t + 1, n)]
  {
    var b := blocks + [Half(c, off, t, n)];
    assert b[|b| - 1 := Half(c, off, t + 1, n)] == blocks + [Half(c, off, t + 1, n)];
  }

  lemma FeedStart(blocks: seq<Block>, last: seq<Line>, from: nat, c: seq<Line>, off: nat, n: nat)
    requires IsBlock(last) && IsBlock(c) && off == from + |last|
    ensures Feed(blocks + [Half(last, from, |last|, n)], c[0], off, n)
      == blocks + [Whole(last, from)] + [Half(c, off, 1, n)]
  {
    var b := blocks + [Half(last, from, |last|, n)];
    assert b[|b| - 1 := Whole(last, from)] == blocks + [Whole(last, from)];
  }

  lemma LineInChunk(lay: Layout, k: nat, t: nat)
    requires k < |lay.chunks| && t < |lay.chunks[k]|
    ensures Offset(lay, k) + t < |LinesOf(lay)| && LinesOf(lay)[Offset(lay, k) + t] == lay.chunks[k][t]
  {
    LinesAround(lay, k);
    assert LinesOf(lay)[Offset(lay, k)..Offset(lay, k + 1)][t] == LinesOf(lay)[Offset(lay, k) + t];
  }

  /** The reader inside chunk k, t lines in: earlier blocks are closed, this one has what its lines gave so far. */
  lemma {:induction false} FedInChunk(lay: Layout, k: nat, t: nat)
    requires Readable(lay) && k < |lay.chunks| && 0 < t <= |lay.chunks[k]|
    ensures Offset(lay, k) + t <= |LinesOf(lay)|
    ensures Fed(LinesOf(lay), Offset(lay, k) + t)
      == Blocks(lay, k) + [Half(lay.chunks[k], Offset(lay, k), t, |LinesOf(lay)|)]
    decreases k, t
  {
    hide *;
    ChunkOk(lay, k);
    ChunkOk(lay, if k > 0 then k - 1 else 0);
    var off, c, n := Offset(lay, k), lay.chunks[k], |LinesOf(lay)|;
    LineInChunk(lay, k, t - 1);
    FedStep(LinesOf(lay), off + t - 1);
    if t > 1 {
      FedInChunk(lay, k, t - 1);
      FeedWithin(Blocks(lay, k), c, off, t - 1, n);
    } else if k == 0 {
      FirstFeed(lay);
      FedHead(lay, off);
    } else {
      var last := lay.chunks[k - 1];
      FedInChunk(lay, k - 1, |last|);
      LinesAround(lay, k - 1);
      FeedStart(Blocks(lay, k - 1), last, Offset(lay, k - 1), c, off, n);
      BlocksGrow(lay, k - 1);
    }
  }

  lemma ChunkOk(lay: Layout, k: nat)
    requires Readable(lay) && k < |lay.chunks|
    ensures IsBlock(lay.chunks[k]) && |lay.chunks[k]| > 0
  {
  }

  lemma FedStep(lines: seq<Line>, i: nat)
    requires i < |lines|
    ensures Fed(lines, i + 1) == Feed(Fed(lines, i), lines[i], i, |lines|)
  {
  }

  lemma FirstFeed(lay: Layout)
    requires Readable(lay) && lay.chunks != []
    ensures Offset(lay, 0) == |lay.head|
    ensures Feed([], lay.chunks[0][0], |lay.head|, |LinesOf(lay)|)
      == Blocks(lay, 0) + [Half(lay.chunks[0], |lay.head|, 1, |LinesOf(lay)|)]
  {
    assert lay.chunks[..0] == [];
  }

  lemma BlocksGrow(lay: Layout, k: nat)
    requires Readable(lay) && k < |lay.chunks|
    ensures Blocks(lay, k + 1) == Blocks(lay, k) + [Whole(lay.chunks[k], Offset(lay, k))]
  {
  }

  lemma {:induction false} FedHead(lay: Layout, i: nat)
    requires Readable(lay) && i <= |lay.head|
    ensures i <= |LinesOf(lay)| && Fed(LinesOf(lay), i) == []
  {
    if i > 0 {
      FedHead(lay, i - 1);
      assert LinesOf(lay)[i - 1] == lay.head[i - 1];
    }
  }

  lemma LineInFooter(lay: Layout, i: nat)
    requires Readable(lay) && i < |lay.footer|
    ensures Offset(lay, |lay.chunks|) + i < |LinesOf(lay)|
    ensures LinesOf(lay)[Offset(lay, |lay.chunks|) + i] == lay.footer[i] && !lay.footer[i].StepLine?
    ensures lay.footer[i].SourceLine? && lay.chunks != [] ==> IsChunk(lay.chunks[|lay.chunks| - 1])
  {
    assert lay.chunks[..|lay.chunks|] == lay.chunks;
  }

  lemma FeedFooter(blocks: seq<Block>, c: seq<Line>, off: nat, line: Line, i: nat, n: nat)
    requires IsBlock(c) && !line.StepLine? && (line.SourceLine? ==> IsChunk(c))
    ensures Feed(blocks + [Half(c, off, |c|, n)], line, i, n) == blocks + [Half(c, off, |c|, n)]
  {
  }

  /** The footer opens no block and gives none a source. */
  lemma {:induction false} FedFooter(lay: Layout, i: nat)
    requires Readable(lay) && lay.chunks != [] && i <= |lay.footer|
    ensures var k, lines := |lay.chunks| - 1, LinesOf(lay);
      && Offset(lay, k + 1) + i <= |lines|
      && Fed(lines, Offset(lay, k + 1) + i)
        == Blocks(lay, k) + [Half(lay.chunks[k], Offset(lay, k), |lay.chunks[k]|, |lines|)]
  {
    hide *;
    var k, n := |lay.chunks| - 1, |LinesOf(lay)|;
    ChunkOk(lay, k);
    LinesAround(lay, k);
    if i == 0 {
      FedInChunk(lay, k, |lay.chunks[k]|);
    } else {
      FedFooter(lay, i - 1);
      LineInFooter(lay, i - 1);
      FedStep(LinesOf(lay), Offset(lay, k + 1) + i - 1);
      FeedFooter(Blocks(lay, k), lay.chunks[k], Offset(lay, k), lay.footer[i - 1], Offset(lay, k + 1) + i - 1, n);
    }
  }

  /** The footer is not part of the last block: a block ends at its first continues line. */
  function FirstContinues(lines: seq<Line>, from: nat, end: nat): (i: nat)
    requires from <= end <= |lines|
    ensures from <= i <= end && (i < end ==> lines[i].Continues?)
    ensures forall k :: from <= k < i ==> !lines[k].Continues?
    decreases end - from
  {
    if from == end || lines[from].Continues? then from else FirstContinues(lines, from + 1, end)
  }

  /** The blocks of a file, each exactly its chunk. */
  method WalkBlocks(lines: seq<Line>, ghost lay: Layout) returns (blocks: seq<Block>)
    requires Readable(lay) && lines == LinesOf(lay)
    ensures blocks == Blocks(lay, |lay.chunks|)
  {
    blocks := [];
    for i := 0 to |lines|
      invariant blocks == Fed(lines, i)
    {
      match lines[i] {
        case StepLine(mark, number, title) =>
          if blocks != [] {
            blocks := blocks[|blocks| - 1 := blocks[|blocks| - 1].(end := i)];
          }
          blocks := blocks + [Block(number, mark, title, i, |lines|, None, 0)];
        case SourceLine(source, step) =>
          if blocks != [] && blocks[|blocks| - 1].source == None {
            blocks := blocks[|blocks| - 1 := blocks[|blocks| - 1].(source := Some(source), step := step)];
          }
        case _ =>
      }
    }
    blocks := CutFooter(lines, blocks, lay);
  }

  /** The footer (a continues line and what follows it) is taken off whichever block runs into it. */
  method CutFooter(lines: seq<Line>, read: seq<Block>, ghost lay: Layout) returns (blocks: seq<Block>)
    requires Readable(lay) && lines == LinesOf(lay) && read == Fed(lines, |lines|)
    ensures blocks == Blocks(lay, |lay.chunks|)
  {
    hide *;
    AllFed(lay);
    blocks := read;
    for k := 0 to |blocks|
      invariant |blocks| == |lay.chunks| == |Blocks(lay, |lay.chunks|)|
      invariant forall m :: 0 <= m < |blocks| ==> blocks[m] == if m < k then Blocks(lay, |lay.chunks|)[m] else read[m]
    {
      BlockSpan(lay, k);
      var end := FirstContinues(lines, blocks[k].first, blocks[k].end);
      blocks := blocks[k := blocks[k].(end := end)];
    }
  }

  /** What the reader has at the end of the file: the chunks' blocks, the last one running to the end. */
  lemma AllFed(lay: Layout)
    requires Readable(lay)
    ensures var all := Fed(LinesOf(lay), |LinesOf(lay)|);
      && |all| == |lay.chunks|
      && forall k :: 0 <= k < |all| ==>
           all[k] == Blocks(lay, |lay.chunks|)[k].(end := if k + 1 < |all| then Offset(lay, k + 1) else |LinesOf(lay)|)
  {
    var n := |lay.chunks|;
    if n == 0 {
      FedNothing(lay, |LinesOf(lay)|);
    } else {
      LastFed(lay);
      forall k | 0 <= k < n - 1 ensures Blocks(lay, n)[k] == Blocks(lay, n - 1)[k] && Blocks(lay, n)[k].end == Offset(lay, k + 1) {
        LinesAround(lay, k);
      }
    }
  }

  lemma LastFed(lay: Layout)
    requires Readable(lay) && lay.chunks != []
    ensures var k, lines := |lay.chunks| - 1, LinesOf(lay);
      Fed(lines, |lines|) == Blocks(lay, k) + [Half(lay.chunks[k], Offset(lay, k), |lay.chunks[k]|, |lines|)]
  {
    hide Fed, Blocks, Half;
    FedFooter(lay, |lay.footer|);
    assert lay.chunks[..|lay.chunks|] == lay.chunks;
  }

  lemma {:induction false} FedNothing(lay: Layout, i: nat)
    requires Readable(lay) && lay.chunks == [] && i <= |LinesOf(lay)|
    ensures Fed(LinesOf(lay), i) == []
  {
    if i > 0 {
      FedNothing(lay, i - 1);
      var line := LinesOf(lay)[i - 1];
      assert line == if i - 1 < |lay.head| then lay.head[i - 1] else lay.footer[i - 1 - |lay.head|];
    }
  }

  /** Cutting chunk k's block at its first continues line leaves exactly the chunk. */
  lemma BlockSpan(lay: Layout, k: nat)
    requires Readable(lay) && k < |lay.chunks|
    ensures var end := if k + 1 < |lay.chunks| then Offset(lay, k + 1) else |LinesOf(lay)|;
      && Offset(lay, k) <= end <= |LinesOf(lay)|
      && Blocks(lay, |lay.chunks|)[k].first == Offset(lay, k) && Blocks(lay, |lay.chunks|)[k].end == Offset(lay, k + 1)
      && FirstContinues(LinesOf(lay), Offset(lay, k), end) == Offset(lay, k + 1)
  {
    LinesAround(lay, k);
    var lines, off, stop := LinesOf(lay), Offset(lay, k), Offset(lay, k + 1);
    assert IsBlock(lay.chunks[k]);
    forall m | off <= m < stop ensures !lines[m].Continues? {
      LineInChunk(lay, k, m - off);
    }
    if k + 1 == |lay.chunks| {
      assert lay.chunks[k + 1..] == [];
      assert lines[stop..] == lay.footer;
      assert lay.footer != [] ==> lines[stop] == lines[stop..][0];
    }
  }
}
