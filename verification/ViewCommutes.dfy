/** A walk, edited where the worker stands, still shows exactly what flattening would. */
module ViewCommutes {
  import opened Outcomes
  import opened LinkGraph
  import opened Marks
  import opened Procedures
  import opened DocumentEdits
  import opened ProcedureStore
  import opened Flattening
  import opened MethodShape
  import opened Commutation
  import opened WalkView

  function BoxKeys(boxes: seq<Box>): (ks: seq<Key>)
    ensures |ks| == |boxes|
    ensures forall i :: 0 <= i < |boxes| ==> ks[i] == Key(boxes[i].source, boxes[i].step, boxes[i].title)
  {
    seq(|boxes|, i requires 0 <= i < |boxes| => Key(boxes[i].source, boxes[i].step, boxes[i].title))
  }

  /** The boxes a flat open writes for its window. */
  function FreshBoxes(chosen: seq<Entry>): (boxes: seq<Box>)
    ensures |boxes| == |chosen|
  {
    seq(|chosen|, i requires 0 <= i < |chosen| =>
      Box(i + 1, Open, chosen[i].title, chosen[i].source, chosen[i].step, ReasonIn(chosen[i].text)))
  }

  /** The walk shows the method from after the entries above to before those below. */
  ghost predicate ShowsWindow(s: State, root: Id, above: seq<Key>, below: seq<Key>) {
    root in s.lib && Keys(Method(s.lib, root)) == above + BoxKeys(s.boxes) + below
  }

  ghost predicate ShowsWhole(s: State, root: Id) {
    ShowsWindow(s, root, [], [])
  }

  /** Every window of a method opens as a view of the library that shows that window. */
  lemma OpenedAgrees(lib: Library, root: Id, start: nat, end: nat)
    requires root in lib && (forall p :: p in lib ==> ValidDocument(lib[p]))
    requires start <= end <= |Method(lib, root)|
    ensures var s, ks := State(lib, FreshBoxes(Method(lib, root)[start..end])), Keys(Method(lib, root));
      && Agrees(s) && (Quiet(lib) ==> Explained(s.boxes)) && ShowsWindow(s, root, ks[..start], ks[end..])
      && (start == 0 && end == |ks| ==> ShowsWhole(s, root))
  {
    hide Agrees, Explained, Quiet, ValidDocument, Method, Keys, BoxKeys, FreshBoxes;
    FreshAgrees(lib, root, start, end);
    if Quiet(lib) {
      FreshExplained(lib, root, start, end);
    }
    FreshKeys(Method(lib, root), start, end);
  }

  lemma FreshAgrees(lib: Library, root: Id, start: nat, end: nat)
    requires root in lib && (forall p :: p in lib ==> ValidDocument(lib[p]))
    requires start <= end <= |Method(lib, root)|
    ensures var s := State(lib, FreshBoxes(Method(lib, root)[start..end])); Agrees(s)
  {
    var out := Method(lib, root);
    MethodSteps(lib, root);
    hide Method, Flat, ValidDocument, Keys, ReasonIn;
    var boxes := FreshBoxes(out[start..end]);
    forall i | 0 <= i < |boxes| ensures Faithful(lib, boxes[i]) {
      assert out[start + i] in out;
    }
    forall i, j | 0 <= i < j < |boxes| ensures boxes[i].source != boxes[j].source || boxes[i].step != boxes[j].step {
      assert out[start + i].source == out[start + j].source ==> out[start + i].step < out[start + j].step;
    }
  }

  lemma FreshExplained(lib: Library, root: Id, start: nat, end: nat)
    requires root in lib && Quiet(lib) && start <= end <= |Method(lib, root)|
    ensures Explained(FreshBoxes(Method(lib, root)[start..end]))
  {
    var out := Method(lib, root);
    EntriesRead(lib, root, [root], 0, {root});
    hide Method, Flat, ReasonIn;
    forall i | start <= i < end ensures ReasonIn(out[i].text) == None {
      assert out[i] in out && lib[out[i].source][out[i].step - 1] in lib[out[i].source];
    }
  }

  lemma FreshKeys(out: seq<Entry>, start: nat, end: nat)
    requires start <= end <= |out|
    ensures Keys(out) == Keys(out)[..start] + BoxKeys(FreshBoxes(out[start..end])) + Keys(out)[end..]
    ensures start == 0 && end == |out| ==> Keys(out) == [] + BoxKeys(FreshBoxes(out[start..end])) + []
  {
    var ks, mid := Keys(out), BoxKeys(FreshBoxes(out[start..end]));
    assert mid == ks[start..end];
    hide *;
    assert ks == ks[..start] + ks[start..end] + ks[end..];
  }

  /** Edits that leave every link alone: texts and titles, unlinked new steps, removals. */
  predicate Plain(c: Command) {
    && (c.EditAt? ==> c.change.link == None)
    && (c.AddAfter? ==> c.step.link == None)
  }

  /** The box is followed, in the walk or below it, by the first step of a procedure: the one its step inlines. */
  predicate InlinesBelow(boxes: seq<Box>, below: seq<Key>, number: int) {
    if 1 <= number < |boxes| then boxes[number].step == 1 else number == |boxes| && below != [] && below[0].step == 1
  }

  function ChangeOf(s: State, c: Command): Change
    requires !c.Tick? && 1 <= c.number <= |s.boxes| && InRange(s.lib, s.boxes[c.number - 1])
  {
    var b := s.boxes[c.number - 1];
    Change(b.source, b.step,
           match c
           case EditAt(_, change) => [Changed(Shows(s.lib, b), change)]
           case AddAfter(_, step) => [Shows(s.lib, b), step]
           case RemoveAt(_) => [])
  }

  lemma ChangeWritten(s: State, c: Command)
    requires Agrees(s) && !c.Tick? && Plain(c)
    requires Stands(s.lib, s.boxes, c.number) && Effect(s.lib, WritesThrough(s, c)).Some?
    ensures 1 <= c.number <= |s.boxes| && InRange(s.lib, s.boxes[c.number - 1])
    ensures Applies(s.lib, ChangeOf(s, c))
    ensures Effect(s.lib, WritesThrough(s, c)).value == Replace(s.lib, ChangeOf(s, c))
  {
    IndexOfNumber(s, c.number);
    WrittenDocument(s, c);
    hide *;
    ChangeFits(s, c);
    DocumentReplaced(s, c);
  }

  lemma ChangeFits(s: State, c: Command)
    requires !c.Tick? && Plain(c) && 1 <= c.number <= |s.boxes| && InRange(s.lib, s.boxes[c.number - 1])
    ensures Applies(s.lib, ChangeOf(s, c))
  {
  }

  lemma DocumentReplaced(s: State, c: Command)
    requires !c.Tick? && 1 <= c.number <= |s.boxes| && InRange(s.lib, s.boxes[c.number - 1])
    ensures var b, change := s.boxes[c.number - 1], ChangeOf(s, c);
      && b.source in s.lib && 1 <= b.step <= |s.lib[b.source]| && change.s == b.source && change.k == b.step
      && Replace(s.lib, change) == s.lib[b.source := DocumentAfter(s.lib[b.source], b.step - 1, c)]
  {
    var b := s.boxes[c.number - 1];
    var d, change := s.lib[b.source], ChangeOf(s, c);
    assert DocumentAfter(d, b.step - 1, c) == d[..b.step - 1] + change.mid + d[b.step..];
  }

  /** Later steps of the changed procedure move; nothing else does. */
  function ShiftKeys(c: Change, ks: seq<Key>): (r: seq<Key>)
    ensures |r| == |ks|
  {
    seq(|ks|, i requires 0 <= i < |ks| =>
      if ks[i].source == c.s && ks[i].step > c.k && c.k >= 1 then ks[i].(step := ks[i].step + |c.mid| - 1) else ks[i])
  }

  lemma {:induction false} RemapElsewhere(c: Change, ks: seq<Key>)
    requires c.k >= 1 && forall i :: 0 <= i < |ks| ==> ks[i].source != c.s || ks[i].step != c.k
    ensures RemapAll(c, ks) == ShiftKeys(c, ks)
  {
    if ks != [] {
      RemapElsewhere(c, ks[1..]);
      assert ShiftKeys(c, ks) == [ShiftKeys(c, ks)[0]] + ShiftKeys(c, ks[1..]);
    }
  }

  lemma RemapAt(c: Change, ks: seq<Key>, j: nat)
    requires c.k >= 1 && j < |ks| && ks[j].source == c.s && ks[j].step == c.k
    requires forall i :: 0 <= i < |ks| && i != j ==> ks[i].source != c.s || ks[i].step != c.k
    ensures RemapAll(c, ks) == ShiftKeys(c, ks[..j]) + MidKeys(c) + ShiftKeys(c, ks[j + 1..])
  {
    assert ks == ks[..j] + ([ks[j]] + ks[j + 1..]);
    RemapConcat(c, ks[..j], [ks[j]] + ks[j + 1..]);
    RemapConcat(c, [ks[j]], ks[j + 1..]);
    assert RemapAll(c, [ks[j]]) == Remap(c, ks[j]) + RemapAll(c, []);
    RemapElsewhere(c, ks[..j]);
    RemapElsewhere(c, ks[j + 1..]);
  }

  lemma KeysJoin(a: seq<Box>, b: seq<Box>)
    ensures BoxKeys(a + b) == BoxKeys(a) + BoxKeys(b)
  {
  }

  lemma KeysCut(boxes: seq<Box>, j: nat)
    requires j <= |boxes|
    ensures BoxKeys(boxes[..j]) == BoxKeys(boxes)[..j] && BoxKeys(boxes[j..]) == BoxKeys(boxes)[j..]
  {
  }

  lemma KeysRenumbered(boxes: seq<Box>)
    ensures BoxKeys(Renumbered(boxes)) == BoxKeys(boxes)
  {
  }

  /** Moving the boxes is moving their keys. */
  lemma KeysShifted(c: Change, boxes: seq<Box>, b: Box, delta: int)
    requires b.source == c.s && b.step == c.k >= 1 && delta == |c.mid| - 1 && (delta == 1 || delta == -1)
    ensures BoxKeys(ShiftAll(boxes, b, delta)) == ShiftKeys(c, BoxKeys(boxes))
  {
  }

  lemma ShiftCut(boxes: seq<Box>, b: Box, delta: int, j: nat)
    requires (delta == 1 || delta == -1) && j <= |boxes|
    ensures ShiftAll(boxes, b, delta)[..j] == ShiftAll(boxes[..j], b, delta)
    ensures ShiftAll(boxes, b, delta)[j..] == ShiftAll(boxes[j..], b, delta)
  {
  }

  lemma NoShift(c: Change, ks: seq<Key>)
    requires |c.mid| == 1
    ensures ShiftKeys(c, ks) == ks
  {
  }

  /** Keys of boxes with the box at j replaced by `middle` and the rest moved. */
  lemma KeysAround(c: Change, boxes: seq<Box>, j: nat, middle: seq<Box>, delta: int)
    requires j < |boxes| && boxes[j].source == c.s && boxes[j].step == c.k >= 1
    requires delta == |c.mid| - 1 && (delta == 1 || delta == -1) && BoxKeys(middle) == MidKeys(c)
    ensures var moved := ShiftAll(boxes, boxes[j], delta);
      BoxKeys(Renumbered(moved[..j] + middle + moved[j + 1..]))
        == ShiftKeys(c, BoxKeys(boxes)[..j]) + MidKeys(c) + ShiftKeys(c, BoxKeys(boxes)[j + 1..])
  {
    hide BoxKeys, ShiftAll, ShiftKeys, Renumbered, MidKeys;
    var moved := ShiftAll(boxes, boxes[j], delta);
    KeysRenumbered(moved[..j] + middle + moved[j + 1..]);
    KeysJoin(moved[..j] + middle, moved[j + 1..]);
    KeysJoin(moved[..j], middle);
    ShiftCut(boxes, boxes[j], delta, j);
    ShiftCut(boxes, boxes[j], delta, j + 1);
    KeysShifted(c, boxes[..j], boxes[j], delta);
    KeysShifted(c, boxes[j + 1..], boxes[j], delta);
    KeysCut(boxes, j);
    KeysCut(boxes, j + 1);
  }

  lemma EditKeys(c: Change, boxes: seq<Box>, j: nat, added: Box)
    requires j < |boxes| && |c.mid| == 1 && BoxKeys([added]) == MidKeys(c)
    ensures BoxKeys(boxes[j := added])
      == ShiftKeys(c, BoxKeys(boxes)[..j]) + MidKeys(c) + ShiftKeys(c, BoxKeys(boxes)[j + 1..])
  {
    hide *;
    assert boxes[j := added] == boxes[..j] + [added] + boxes[j + 1..];
    KeysJoin(boxes[..j] + [added], boxes[j + 1..]);
    KeysJoin(boxes[..j], [added]);
    KeysCut(boxes, j);
    KeysCut(boxes, j + 1);
    NoShift(c, BoxKeys(boxes)[..j]);
    NoShift(c, BoxKeys(boxes)[j + 1..]);
  }

  lemma AddKeys(c: Change, boxes: seq<Box>, j: nat, added: Box)
    requires j < |boxes| && boxes[j].source == c.s && boxes[j].step == c.k >= 1
    requires |c.mid| == 2 && BoxKeys([boxes[j], added]) == MidKeys(c)
    ensures var moved := ShiftAll(boxes, boxes[j], 1);
      BoxKeys(Renumbered(moved[..j + 1] + [added] + moved[j + 1..]))
        == ShiftKeys(c, BoxKeys(boxes)[..j]) + MidKeys(c) + ShiftKeys(c, BoxKeys(boxes)[j + 1..])
  {
    hide *;
    var moved := ShiftAll(boxes, boxes[j], 1);
    ShiftedSelf(boxes, j, 1);
    assert moved[..j + 1] + [added] == moved[..j] + [boxes[j], added];
    KeysAround(c, boxes, j, [boxes[j], added], 1);
  }

  lemma RemoveKeys(c: Change, boxes: seq<Box>, j: nat)
    requires j < |boxes| && boxes[j].source == c.s && boxes[j].step == c.k >= 1
    requires |c.mid| == 0 && BoxKeys([]) == MidKeys(c)
    ensures var moved := ShiftAll(boxes, boxes[j], -1);
      BoxKeys(Renumbered(moved[..j] + moved[j + 1..]))
        == ShiftKeys(c, BoxKeys(boxes)[..j]) + MidKeys(c) + ShiftKeys(c, BoxKeys(boxes)[j + 1..])
  {
    hide *;
    var moved := ShiftAll(boxes, boxes[j], -1);
    assert moved[..j] + [] == moved[..j];
    KeysAround(c, boxes, j, [], -1);
  }

  /** The box a command stands on, and what the keys become around it. */
  lemma KeysAt(s: State, c: Command)
    requires Agrees(s) && !c.Tick? && Stands(s.lib, s.boxes, c.number)
    ensures 1 <= c.number <= |s.boxes| && InRange(s.lib, s.boxes[c.number - 1])
    ensures IndexOf(s.boxes, c.number) == c.number - 1
    ensures var change, ks, j := ChangeOf(s, c), BoxKeys(s.boxes), c.number - 1;
      && change.s == s.boxes[j].source && change.k == s.boxes[j].step >= 1
      && RemapAll(change, ks) == ShiftKeys(change, ks[..j]) + MidKeys(change) + ShiftKeys(change, ks[j + 1..])
  {
    IndexOfNumber(s, c.number);
    assert Faithful(s.lib, s.boxes[c.number - 1]);
    RemapAt(ChangeOf(s, c), BoxKeys(s.boxes), c.number - 1);
  }

  lemma RewrittenKeys(s: State, c: Command)
    requires Agrees(s) && !c.Tick? && Plain(c) && Stands(s.lib, s.boxes, c.number)
    ensures 1 <= c.number <= |s.boxes| && InRange(s.lib, s.boxes[c.number - 1])
    ensures BoxKeys(Rewritten(s, c)) == RemapAll(ChangeOf(s, c), BoxKeys(s.boxes))
  {
    hide Agrees, RemapAll, ShiftKeys, MidKeys, ShiftAll, Renumbered, Changed, BoxKeys, Stands, InRange;
    KeysAt(s, c);
    MiddleKeys(s, c);
    var j, b, change := c.number - 1, s.boxes[c.number - 1], ChangeOf(s, c);
    match c {
      case EditAt(_, edit) =>
        EditKeys(change, s.boxes, j, b.(title := Changed(Shows(s.lib, b), edit).title, reason := ReasonIn(Changed(Found(s.lib, b), edit).text)));
      case AddAfter(_, step) =>
        AddKeys(change, s.boxes, j, Box(b.number + 1, Open, step.title, b.source, b.step + 1, ReasonIn(step.text)));
      case RemoveAt(_) =>
        RemoveKeys(change, s.boxes, j);
    }
  }

  lemma ShiftedSelf(boxes: seq<Box>, j: nat, delta: int)
    requires (delta == 1 || delta == -1) && j < |boxes|
    ensures ShiftAll(boxes, boxes[j], delta)[j] == boxes[j]
  {
  }

  /** The boxes that stand for the replacing steps. */
  lemma MiddleKeys(s: State, c: Command)
    requires Agrees(s) && !c.Tick? && 1 <= c.number <= |s.boxes| && InRange(s.lib, s.boxes[c.number - 1])
    ensures var b, mid := s.boxes[c.number - 1], MidKeys(ChangeOf(s, c));
      match c
      case EditAt(_, edit) => mid == BoxKeys([b.(title := Changed(Shows(s.lib, b), edit).title, reason := ReasonIn(Changed(Found(s.lib, b), edit).text))])
      case AddAfter(_, step) => mid == BoxKeys([b, Box(b.number + 1, Open, step.title, b.source, b.step + 1, ReasonIn(step.text))])
      case RemoveAt(_) => mid == BoxKeys([])
  {
    assert Faithful(s.lib, s.boxes[c.number - 1]);
  }

  /** What a command does to the walk's keys. */
  lemma CommandKeys(s: State, c: Command)
    requires Agrees(s) && !c.Tick? && Plain(c) && After(s, c).Some?
    ensures 1 <= c.number <= |s.boxes| && InRange(s.lib, s.boxes[c.number - 1])
    ensures Applies(s.lib, ChangeOf(s, c)) && After(s, c).value.lib == Replace(s.lib, ChangeOf(s, c))
    ensures BoxKeys(After(s, c).value.boxes) == RemapAll(ChangeOf(s, c), BoxKeys(s.boxes))
  {
    hide Agrees, After, Rewritten, Rendered, Effect, WritesThrough, Stands, ChangeOf, RemapAll, Replace, Applies;
    CommandStep(s, c);
    RewrittenAgrees(s, c);
    RewrittenKeys(s, c);
    ChangeWritten(s, c);
    RenderAgrees(State(Effect(s.lib, WritesThrough(s, c)).value, Rewritten(s, c)));
  }

  /** The box is followed by an inlined procedure exactly when its entry in the method is. */
  lemma SameInlining(s: State, root: Id, above: seq<Key>, below: seq<Key>, n: int, c: Change)
    requires ShowsWindow(s, root, above, below) && 1 <= n <= |s.boxes|
    requires c.s == s.boxes[n - 1].source && c.k == s.boxes[n - 1].step
    ensures InlinesNothing(c, Method(s.lib, root)) <==> !InlinesBelow(s.boxes, below, n)
  {
    var out := Method(s.lib, root);
    var at := |above| + n - 1;
    WindowKeys(Keys(out), above, BoxKeys(s.boxes), below, n);
    hide *;
    EntryKeys(out, at);
    if n < |s.boxes| {
      assert BoxKeys(s.boxes)[n].step == s.boxes[n].step;
    }
    OnlyPlace(s.lib, root, c, at);
  }

  lemma EntryKeys(out: seq<Entry>, at: nat)
    requires at < |out|
    ensures KeyOf(out[at]) == Keys(out)[at] && Keys(out)[at].source == out[at].source && Keys(out)[at].step == out[at].step
    ensures at + 1 < |out| ==> Keys(out)[at + 1].step == out[at + 1].step
  {
  }

  /** A step stands in the method once. */
  lemma OnlyPlace(lib: Library, root: Id, c: Change, at: nat)
    requires root in lib
    requires var out := Method(lib, root); at < |out| && out[at].source == c.s && out[at].step == c.k
    ensures var out := Method(lib, root); InlinesNothing(c, out) <==> !(at + 1 < |out| && out[at + 1].step == 1)
  {
    MethodSteps(lib, root);
    hide Method;
  }

  /** The entry of a box, and the one that follows it. */
  lemma WindowKeys(all: seq<Key>, above: seq<Key>, ks: seq<Key>, below: seq<Key>, n: int)
    requires all == above + ks + below && 1 <= n <= |ks|
    ensures var at := |above| + n - 1;
      && at < |all| && all[at] == ks[n - 1] && (at + 1 < |all| <==> n < |ks| || below != [])
      && (n < |ks| ==> all[at + 1] == ks[n]) && (n == |ks| && below != [] ==> all[at + 1] == below[0])
  {
  }

  /** What the entries beyond the walk are after a command on it. */
  function Outside(s: State, c: Command, ks: seq<Key>): (r: seq<Key>)
    ensures ks == [] ==> r == []
  {
    if c.Tick? || !(1 <= c.number <= |s.boxes| && InRange(s.lib, s.boxes[c.number - 1])) then ks
    else RemapAll(ChangeOf(s, c), ks)
  }

  lemma RemapWindow(c: Change, above: seq<Key>, ks: seq<Key>, below: seq<Key>)
    ensures RemapAll(c, above + ks + below) == RemapAll(c, above) + RemapAll(c, ks) + RemapAll(c, below)
  {
    RemapConcat(c, above + ks, below);
    RemapConcat(c, above, ks);
  }

  /**
   A plain edit of a walk leaves a walk that shows its window of the method of the edited library: always when it keeps
   the step, and when it adds or removes one exactly if the box's step inlines nothing there. The entries beyond the
   window are the old ones, moved like the walk's own.
   */
  lemma EditingCommutes(s: State, c: Command, root: Id, above: seq<Key>, below: seq<Key>)
    requires Agrees(s) && ShowsWindow(s, root, above, below) && Plain(c) && After(s, c).Some?
    ensures ShowsWindow(After(s, c).value, root, Outside(s, c, above), Outside(s, c, below)) <==>
      c.Tick? || c.EditAt? || !InlinesBelow(s.boxes, below, c.number)
  {
    if c.Tick? {
      hide *;
      TickShown(s, c, root, above, below);
    } else {
      hide After, Agrees, Applies, RemapAll, Method, Keys, BoxKeys, InlinesNothing, InlinesBelow, Shows, Changed;
      CommandKeys(s, c);
      var change := ChangeOf(s, c);
      SameInlining(s, root, above, below, c.number, change);
      CommutesExactly(s.lib, change, root);
      RemapWindow(change, above, BoxKeys(s.boxes), below);
      assert Outside(s, c, above) == RemapAll(change, above) && Outside(s, c, below) == RemapAll(change, below);
      assert root in After(s, c).value.lib && (|change.mid| == 1 <==> c.EditAt?);
      hide *;
      WindowShown(After(s, c).value, root, Outside(s, c, above), Outside(s, c, below));
      WindowShown(s, root, above, below);
    }
  }

  lemma TickShown(s: State, c: Command, root: Id, above: seq<Key>, below: seq<Key>)
    requires Agrees(s) && ShowsWindow(s, root, above, below) && c.Tick? && After(s, c).Some?
    ensures ShowsWindow(After(s, c).value, root, Outside(s, c, above), Outside(s, c, below))
  {
    TickKeys(s, c.call);
    hide After, Agrees, BoxKeys, Keys, Method;
  }

  lemma WindowShown(s: State, root: Id, above: seq<Key>, below: seq<Key>)
    requires root in s.lib
    ensures ShowsWindow(s, root, above, below) <==> Keys(Method(s.lib, root)) == above + BoxKeys(s.boxes) + below
  {
  }

  lemma TickKeys(s: State, t: TickCall)
    requires Agrees(s) && After(s, Tick(t)).Some?
    ensures var after := After(s, Tick(t)).value; after.lib == s.lib && BoxKeys(after.boxes) == BoxKeys(s.boxes)
  {
    TickedAgrees(s, t);
    RenderAgrees(State(s.lib, Ticked(s.boxes, t)));
    hide Agrees;
  }

  /** Only the box stood on is touched: every other mark is what it was, in its order. */
  lemma OtherMarksStay(s: State, c: Command)
    requires Agrees(s) && !c.Tick? && After(s, c).Some?
    ensures 1 <= c.number <= |s.boxes|
    ensures MarksOf(After(s, c).value.boxes) ==
      match c
      case EditAt(n, _) => MarksOf(s.boxes)
      case AddAfter(n, _) => MarksOf(s.boxes)[..n] + [Open] + MarksOf(s.boxes)[n..]
      case RemoveAt(n) => MarksOf(s.boxes)[..n - 1] + MarksOf(s.boxes)[n..]
  {
    hide Agrees, After, Rewritten, Rendered, Effect, WritesThrough, Stands, MarksOf;
    CommandStep(s, c);
    RewrittenAgrees(s, c);
    var lib := Effect(s.lib, WritesThrough(s, c)).value;
    RenderAgrees(State(lib, Rewritten(s, c)));
    SameMarks(Rendered(lib, Rewritten(s, c)), Rewritten(s, c));
    IndexOfNumber(s, c.number);
    RewrittenMarks(s, c);
  }

  lemma SameMarks(a: seq<Box>, b: seq<Box>)
    requires |a| == |b| && forall i :: 0 <= i < |a| ==> a[i] == b[i].(reason := a[i].reason)
    ensures MarksOf(a) == MarksOf(b)
  {
  }

  lemma RewrittenMarks(s: State, c: Command)
    requires !c.Tick? && Stands(s.lib, s.boxes, c.number)
    requires 1 <= c.number <= |s.boxes| && IndexOf(s.boxes, c.number) == c.number - 1
    ensures MarksOf(Rewritten(s, c)) ==
      match c
      case EditAt(n, _) => MarksOf(s.boxes)
      case AddAfter(n, _) => MarksOf(s.boxes)[..n] + [Open] + MarksOf(s.boxes)[n..]
      case RemoveAt(n) => MarksOf(s.boxes)[..n - 1] + MarksOf(s.boxes)[n..]
  {
    hide Agrees, InRange, Changed, Shows, MarksOf, Renumbered, ShiftAll, Stands;
    var j, b := c.number - 1, s.boxes[c.number - 1];
    match c {
      case EditAt(_, _) => SameMarkAt(s.boxes, j, Rewritten(s, c)[j]);
      case AddAfter(n, step) =>
        MarksAround(s.boxes, b, 1, n, n, [Box(b.number + 1, Open, step.title, b.source, b.step + 1, ReasonIn(step.text))]);
      case RemoveAt(n) =>
        MarksAround(s.boxes, b, -1, j, n, []);
        assert ShiftAll(s.boxes, b, -1)[..j] + [] == ShiftAll(s.boxes, b, -1)[..j];
    }
  }

  lemma SameMarkAt(boxes: seq<Box>, j: nat, b: Box)
    requires j < |boxes| && b.mark == boxes[j].mark
    ensures MarksOf(boxes[j := b]) == MarksOf(boxes)
  {
  }

  lemma MarksAround(boxes: seq<Box>, at: Box, delta: int, i: nat, j: nat, middle: seq<Box>)
    requires (delta == 1 || delta == -1) && i <= j <= |boxes|
    ensures var moved := ShiftAll(boxes, at, delta);
      MarksOf(Renumbered(moved[..i] + middle + moved[j..])) == MarksOf(boxes)[..i] + MarksOf(middle) + MarksOf(boxes)[j..]
    ensures |middle| == 1 ==> MarksOf(middle) == [middle[0].mark]
    ensures |middle| == 0 ==> MarksOf(boxes)[..i] + MarksOf(middle) == MarksOf(boxes)[..i]
  {
  }

  function MarksOf(boxes: seq<Box>): (marks: seq<Mark>)
    ensures |marks| == |boxes| && forall i :: 0 <= i < |boxes| ==> marks[i] == boxes[i].mark
  {
    seq(|boxes|, i requires 0 <= i < |boxes| => boxes[i].mark)
  }

  /** The entries beyond the walk after a run of commands on it. */
  ghost function OutsideRun(s: State, commands: seq<Command>, ks: seq<Key>): (r: seq<Key>)
    ensures ks == [] ==> r == []
  {
    if commands == [] then ks else
    var n := |commands| - 1;
    var before, so := WalkView.AfterRun(s, commands[..n]), OutsideRun(s, commands[..n], ks);
    if After(before, commands[n]).Some? then Outside(before, commands[n], so) else so
  }

  ghost predicate PlainNow(s: State, below: seq<Key>, c: Command) {
    Plain(c) && (c.AddAfter? || c.RemoveAt? ==> !InlinesBelow(s.boxes, below, c.number))
  }

  /** Plain commands whose added and removed steps inline nothing where they stand, as the run goes. */
  ghost predicate PlainRun(s: State, commands: seq<Command>, below: seq<Key>) {
    forall k :: 0 <= k < |commands| ==>
      PlainNow(WalkView.AfterRun(s, commands[..k]), OutsideRun(s, commands[..k], below), commands[k])
  }

  /** Over a whole run of them the walk is, at every moment, its window of what flattening the edited library gives. */
  lemma {:induction false} RunCommutes(s: State, commands: seq<Command>, root: Id, above: seq<Key>, below: seq<Key>)
    requires Agrees(s) && ShowsWindow(s, root, above, below) && PlainRun(s, commands, below)
    ensures ShowsWindow(WalkView.AfterRun(s, commands), root, OutsideRun(s, commands, above), OutsideRun(s, commands, below))
  {
    hide Agrees, ShowsWindow, After, InlinesBelow, Outside;
    if commands != [] {
      var n := |commands| - 1;
      assert PlainRun(s, commands[..n], below) by {
        assert forall k :: 0 <= k < n ==> commands[..n][k] == commands[k] && commands[..n][..k] == commands[..k];
      }
      RunCommutes(s, commands[..n], root, above, below);
      RunKeepsView(s, commands[..n]);
      var before := WalkView.AfterRun(s, commands[..n]);
      if After(before, commands[n]).Some? {
        EditingCommutes(before, commands[n], root, OutsideRun(s, commands[..n], above), OutsideRun(s, commands[..n], below));
      }
    }
  }
}
