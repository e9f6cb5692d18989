/** The walk file under its commands: lines are changed in place, and the boxes they show change as WalkView says. */
module WalkFile {
  import opened LinkGraph
  import opened Marks
  import opened WalkView
  import opened WalkLines
  import opened Sequences

  /** Changes made line by line over the whole file. */
  datatype LineOp = Ticking(call: TickCall) | Moving(source: Id, step: nat, delta: int)

  predicate OpOk(op: LineOp) {
    op.Moving? ==> op.delta == 1 || op.delta == -1
  }

  function Change(op: LineOp, line: Line): seq<Line>
    requires OpOk(op)
  {
    match (op, line)
    case (Ticking(t), StepLine(mark, number, title)) =>
      if number in t.done then [StepLine(Done, number, title), ReasonLine(Note(Done, t.note))]
      else if number in t.skip then [StepLine(NotNeeded, number, title), ReasonLine(Note(NotNeeded, t.because))]
      else [line]
    case (Moving(source, step, delta), SourceLine(at, n)) =>
      if at == source && n > step then [SourceLine(at, n + delta)] else [line]
    case _ => [line]
  }

  function ChangeAll(op: LineOp, lines: seq<Line>): seq<Line>
    requires OpOk(op)
  {
    if lines == [] then [] else Change(op, lines[0]) + ChangeAll(op, lines[1..])
  }

  function MapChunks(op: LineOp, chunks: seq<seq<Line>>): (r: seq<seq<Line>>)
    requires OpOk(op)
    ensures |r| == |chunks| && forall k :: 0 <= k < |r| ==> r[k] == ChangeAll(op, chunks[k])
  {
    seq(|chunks|, k requires 0 <= k < |chunks| => ChangeAll(op, chunks[k]))
  }

  function MapLayout(op: LineOp, lay: Layout): Layout
    requires OpOk(op)
  {
    Layout(ChangeAll(op, lay.head), MapChunks(op, lay.chunks), ChangeAll(op, lay.footer))
  }

  lemma {:induction false} ChangeConcat(op: LineOp, a: seq<Line>, b: seq<Line>)
    requires OpOk(op)
    ensures ChangeAll(op, a + b) == ChangeAll(op, a) + ChangeAll(op, b)
  {
    if a == [] {
      assert a + b == b;
    } else {
      assert (a + b)[1..] == a[1..] + b;
      ChangeConcat(op, a[1..], b);
    }
  }

  lemma {:induction false} ChangeJoin(op: LineOp, chunks: seq<seq<Line>>)
    requires OpOk(op)
    ensures ChangeAll(op, Join(chunks)) == Join(MapChunks(op, chunks))
  {
    if chunks != [] {
      ChangeConcat(op, chunks[0], Join(chunks[1..]));
      ChangeJoin(op, chunks[1..]);
      assert MapChunks(op, chunks)[1..] == MapChunks(op, chunks[1..]);
    }
  }

  lemma ChangeLayout(op: LineOp, lay: Layout)
    requires OpOk(op)
    ensures ChangeAll(op, LinesOf(lay)) == LinesOf(MapLayout(op, lay))
  {
    ChangeConcat(op, lay.head + Join(lay.chunks), lay.footer);
    ChangeConcat(op, lay.head, Join(lay.chunks));
    ChangeJoin(op, lay.chunks);
  }

  /** Lines that are not step lines are not touched by a tick, and stay one line each under a move. */
  lemma {:induction false} ChangePlain(op: LineOp, lines: seq<Line>)
    requires OpOk(op) && NoStepLine(lines)
    ensures |ChangeAll(op, lines)| == |lines|
    ensures forall k :: 0 <= k < |lines| ==> [ChangeAll(op, lines)[k]] == Change(op, lines[k])
    ensures op.Ticking? ==> ChangeAll(op, lines) == lines
  {
    if lines != [] {
      ChangePlain(op, lines[1..]);
      assert Change(op, lines[0]) == [Change(op, lines[0])[0]];
      assert forall k :: 0 < k < |lines| ==> lines[k] == lines[1..][k - 1];
    }
  }

  lemma FirstIs(c: seq<Line>, s: nat, r: nat)
    requires s <= |c| && (s < |c| ==> c[s].SourceLine?) && forall k :: 0 <= k < s ==> !c[k].SourceLine?
    requires r <= |c| && (r < |c| ==> NoteOf(c[r]).Some?) && forall k :: 0 <= k < r ==> NoteOf(c[k]).None?
    ensures FirstSource(c) == s && FirstReason(c) == r
  {
  }

  function ChangedBox(op: LineOp, b: Box): Box
    requires OpOk(op)
  {
    match op
    case Ticking(t) => TickedBox(b, t)
    case Moving(source, step, delta) => if b.source == source && b.step > step then b.(step := b.step + delta) else b
  }

  lemma TickedChunk(t: TickCall, c: seq<Line>)
    requires IsChunk(c)
    ensures var after := Change(Ticking(t), c[0]) + c[1..];
      IsChunk(after) && BoxOf(after) == TickedBox(BoxOf(c), t)
  {
    var first := Change(Ticking(t), c[0]);
    var after, s, r := first + c[1..], FirstSource(c), FirstReason(c);
    if |first| == 1 {
      FirstIs(after, s, r);
    } else {
      assert after == [first[0], first[1]] + c[1..];
      assert forall k :: 2 <= k < |after| ==> after[k] == c[k - 1];
      FirstIs(after, s + 1, 1);
    }
  }

  lemma MovedChunk(op: LineOp, c: seq<Line>, after: seq<Line>)
    requires op.Moving? && OpOk(op) && IsChunk(c) && |after| == |c| && after[0] == c[0]
    requires forall k :: 0 < k < |c| ==> [after[k]] == Change(op, c[k])
    ensures IsChunk(after) && BoxOf(after) == ChangedBox(op, BoxOf(c))
  {
    var s, r := FirstSource(c), FirstReason(c);
    forall k | 0 < k < |c|
      ensures after[k].StepLine? == c[k].StepLine? && after[k].SourceLine? == c[k].SourceLine?
      ensures after[k].Continues? == c[k].Continues? && NoteOf(after[k]) == NoteOf(c[k])
      ensures !c[k].SourceLine? ==> after[k] == c[k]
    {
      assert [after[k]][0] == Change(op, c[k])[0];
    }
    FirstIs(after, s, r);
    assert [after[s]][0] == Change(op, c[s])[0];
  }

  /** A chunk changed line by line shows its box changed. */
  lemma ChangedChunk(op: LineOp, c: seq<Line>)
    requires OpOk(op) && IsChunk(c)
    ensures IsChunk(ChangeAll(op, c)) && BoxOf(ChangeAll(op, c)) == ChangedBox(op, BoxOf(c))
  {
    var first, below := Change(op, c[0]), ChangeAll(op, c[1..]);
    ChangePlain(op, c[1..]);
    assert ChangeAll(op, c) == first + below;
    if op.Ticking? {
      TickedChunk(op.call, c);
    } else {
      assert forall k :: 0 < k < |c| ==> (first + below)[k] == below[k - 1] && c[1..][k - 1] == c[k];
      MovedChunk(op, c, first + below);
    }
  }

  lemma ChangedLayout(op: LineOp, lay: Layout)
    requires OpOk(op) && WellFormed(lay)
    ensures WellFormed(MapLayout(op, lay))
    ensures |MapLayout(op, lay).chunks| == |lay.chunks|
    ensures forall k :: 0 <= k < |lay.chunks| ==>
      BoxesOf(MapLayout(op, lay).chunks)[k] == ChangedBox(op, BoxesOf(lay.chunks)[k])
  {
    ChangePlain(op, lay.head);
    ChangePlain(op, lay.footer);
    forall k | 0 <= k < |lay.chunks|
      ensures IsChunk(MapChunks(op, lay.chunks)[k])
      ensures BoxOf(MapChunks(op, lay.chunks)[k]) == ChangedBox(op, BoxOf(lay.chunks[k]))
    {
      ChangedChunk(op, lay.chunks[k]);
    }
  }

  /** The same change, made in one pass over the lines. */
  method ChangeLines(op: LineOp, lines: seq<Line>) returns (out: seq<Line>)
    requires OpOk(op)
    ensures out == ChangeAll(op, lines)
  {
    out := [];
    for i := 0 to |lines|
      invariant out == ChangeAll(op, lines[..i])
    {
      assert lines[..i + 1] == lines[..i] + [lines[i]];
      ChangeConcat(op, lines[..i], [lines[i]]);
      assert ChangeAll(op, [lines[i]]) == Change(op, lines[i]) + ChangeAll(op, []);
      out := out + Change(op, lines[i]);
    }
    assert lines[..|lines|] == lines;
  }

  /** Step numbers from n + 1 on, in file order. */
  function RenumberFrom(lines: seq<Line>, n: nat): seq<Line> {
    if lines == [] then []
    else if lines[0].StepLine? then [lines[0].(number := n + 1)] + RenumberFrom(lines[1..], n + 1)
    else [lines[0]] + RenumberFrom(lines[1..], n)
  }

  function StepCount(lines: seq<Line>): nat {
    if lines == [] then 0 else (if lines[0].StepLine? then 1 else 0) + StepCount(lines[1..])
  }

  lemma RenumberStep(lines: seq<Line>, n: nat)
    requires lines != []
    ensures RenumberFrom(lines, n) == [NumberLine(lines[0], n)] + RenumberFrom(lines[1..], NumberAfter(lines[0], n))
    ensures StepCount(lines) == StepCount(lines[1..]) + NumberAfter(lines[0], n) - n
  {
  }

  function NumberLine(line: Line, n: nat): Line {
    if line.StepLine? then line.(number := n + 1) else line
  }

  function NumberAfter(line: Line, n: nat): nat {
    if line.StepLine? then n + 1 else n
  }

  lemma {:induction false} RenumberConcat(a: seq<Line>, b: seq<Line>, n: nat)
    ensures RenumberFrom(a + b, n) == RenumberFrom(a, n) + RenumberFrom(b, n + StepCount(a))
    ensures StepCount(a + b) == StepCount(a) + StepCount(b)
  {
    if a == [] {
      assert a + b == b;
    } else {
      assert (a + b)[1..] == a[1..] + b && (a + b)[0] == a[0];
      hide *;
      var x, m := NumberLine(a[0], n), NumberAfter(a[0], n);
      RenumberStep(a, n);
      RenumberStep(a + b, n);
      RenumberConcat(a[1..], b, m);
      Regroup([x], RenumberFrom(a[1..], m), RenumberFrom(b, n + StepCount(a)));
    }
  }

  lemma {:induction false} RenumberPlain(lines: seq<Line>, n: nat)
    requires NoStepLine(lines)
    ensures RenumberFrom(lines, n) == lines && StepCount(lines) == 0
  {
    if lines != [] {
      RenumberPlain(lines[1..], n);
    }
  }

  lemma NumberedChunk(c: seq<Line>, n: nat)
    requires IsChunk(c)
    ensures c[0].StepLine?
    ensures var after := [c[0].(number := n)] + c[1..]; IsChunk(after) && BoxOf(after) == BoxOf(c).(number := n)
  {
    var after := [c[0].(number := n)] + c[1..];
    FirstIs(after, FirstSource(c), FirstReason(c));
  }

  lemma RenumberChunk(c: seq<Line>, n: nat)
    requires IsChunk(c)
    ensures RenumberFrom(c, n) == [c[0].(number := n + 1)] + c[1..] && StepCount(c) == 1
    ensures IsChunk(RenumberFrom(c, n)) && BoxOf(RenumberFrom(c, n)) == BoxOf(c).(number := n + 1)
  {
    assert NoStepLine(c[1..]) && c != [];
    hide IsChunk, BoxOf, RenumberFrom, StepCount, NoStepLine;
    NumberedChunk(c, n + 1);
    RenumberStep(c, n);
    RenumberPlain(c[1..], n + 1);
  }

  function NumberChunks(chunks: seq<seq<Line>>, n: nat): (r: seq<seq<Line>>)
    ensures |r| == |chunks| && forall k :: 0 <= k < |r| ==> r[k] == RenumberFrom(chunks[k], n + k)
  {
    seq(|chunks|, k requires 0 <= k < |chunks| => RenumberFrom(chunks[k], n + k))
  }

  lemma RenumberNothing(n: nat)
    ensures RenumberFrom([], n) == []
  {
  }

  lemma {:induction false} RenumberJoin(chunks: seq<seq<Line>>, n: nat)
    requires forall k :: 0 <= k < |chunks| ==> IsChunk(chunks[k])
    ensures RenumberFrom(Join(chunks), n) == Join(NumberChunks(chunks, n))
  {
    hide RenumberFrom, IsChunk, StepCount, NumberChunks;
    if chunks != [] {
      RenumberChunk(chunks[0], n);
      RenumberConcat(chunks[0], Join(chunks[1..]), n);
      RenumberJoin(chunks[1..], n + 1);
      assert NumberChunks(chunks, n)[1..] == NumberChunks(chunks[1..], n + 1);
    } else {
      RenumberNothing(n);
    }
  }

  function NumberLayout(lay: Layout): Layout {
    lay.(chunks := NumberChunks(lay.chunks, 0))
  }

  lemma RenumberLayout(lay: Layout)
    requires WellFormed(lay)
    ensures RenumberFrom(LinesOf(lay), 0) == LinesOf(NumberLayout(lay))
    ensures WellFormed(NumberLayout(lay))
    ensures BoxesOf(NumberLayout(lay).chunks) == Renumbered(BoxesOf(lay.chunks))
  {
    hide IsChunk, BoxOf, RenumberFrom, StepCount;
    NumberedLines(lay);
    forall k | 0 <= k < |lay.chunks|
      ensures IsChunk(NumberChunks(lay.chunks, 0)[k])
      ensures BoxOf(NumberChunks(lay.chunks, 0)[k]) == BoxOf(lay.chunks[k]).(number := k + 1)
    {
      RenumberChunk(lay.chunks[k], k);
    }
  }

  lemma NumberedLines(lay: Layout)
    requires WellFormed(lay)
    ensures RenumberFrom(LinesOf(lay), 0) == LinesOf(NumberLayout(lay))
  {
    hide IsChunk, RenumberFrom, StepCount, Join, NumberChunks;
    RenumberPlain(lay.head, 0);
    RenumberConcat(lay.head, Join(lay.chunks) + lay.footer, 0);
    assert LinesOf(lay) == lay.head + (Join(lay.chunks) + lay.footer);
    RenumberConcat(Join(lay.chunks), lay.footer, 0);
    RenumberPlain(lay.footer, StepCount(Join(lay.chunks)));
    RenumberJoin(lay.chunks, 0);
  }

  method Renumber(lines: seq<Line>) returns (out: seq<Line>)
    ensures out == RenumberFrom(lines, 0)
  {
    var n := 0;
    out := [];
    for i := 0 to |lines|
      invariant out == RenumberFrom(lines[..i], 0) && n == StepCount(lines[..i])
    {
      assert lines[..i + 1] == lines[..i] + [lines[i]];
      RenumberConcat(lines[..i], [lines[i]], 0);
      if lines[i].StepLine? {
        n := n + 1;
        out := out + [lines[i].(number := n)];
      } else {
        out := out + [lines[i]];
      }
    }
    assert lines[..|lines|] == lines;
  }
}
