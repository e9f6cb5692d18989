/**
 A flat walk as its boxes: what a tick, an edit, an added or a removed step does to the boxes and to the library
 they come from. The library is the truth and the walk a view of it; `Agrees` is what every command keeps.
 */
module WalkView {
  import opened Outcomes
  import opened LinkGraph
  import opened Marks
  import opened Procedures
  import opened DocumentEdits
  import opened ProcedureStore
  import Texts

  /** The line under a closed box: what the step found, or why it does not apply. */
  datatype Note = Note(mark: Mark, text: string)

  /** One block of the walk file; source and step name the library's step it shows. */
  datatype Box = Box(number: nat, mark: Mark, title: string, source: Id, step: nat, reason: Option<Note>)

  /** How far past the first open box a walk still shows every step's text. */
  const REVEAL: nat := 1000000

  predicate InRange(lib: Library, b: Box) {
    b.source in lib && 1 <= b.step <= |lib[b.source]|
  }

  function Shows(lib: Library, b: Box): Step
    requires InRange(lib, b)
  {
    lib[b.source][b.step - 1]
  }

  predicate AllInRange(lib: Library, boxes: seq<Box>) {
    forall i :: 0 <= i < |boxes| ==> InRange(lib, boxes[i])
  }

  function FirstOpen(boxes: seq<Box>): (i: nat)
    ensures i <= |boxes| && (i < |boxes| ==> boxes[i].mark == Open)
    ensures forall k :: 0 <= k < i ==> boxes[k].mark != Open
  {
    if boxes == [] || boxes[0].mark == Open then 0 else
    var i := FirstOpen(boxes[1..]);
    assert forall k :: 0 < k <= i && k < |boxes| ==> boxes[k] == boxes[1..][k - 1];
    1 + i
  }

  const DONE_WORD := "done:"
  const SKIP_WORD := "not needed here:"

  /** A step's text that starts like a reason is taken for one when the walk is read. */
  function ReasonIn(text: string): Option<Note> {
    var t := Texts.Strip(text);
    if DONE_WORD <= t then Some(Note(Done, Texts.Strip(t[|DONE_WORD|..])))
    else if SKIP_WORD <= t then Some(Note(NotNeeded, Texts.Strip(t[|SKIP_WORD|..])))
    else None
  }

  /** Which texts are taken for reasons. */
  lemma ReasonInMeans(text: string)
    ensures ReasonIn(text).Some? && ReasonIn(text).value.mark == Done <==> exists rest :: Texts.Strip(text) == "done:" + rest
    ensures ReasonIn(text).Some? && ReasonIn(text).value.mark != Done <==> exists rest :: Texts.Strip(text) == "not needed here:" + rest
    ensures ReasonIn(text).Some? ==> ReasonIn(text).value.mark != Open
    ensures forall rest :: Texts.Strip(text) == "done:" + rest || Texts.Strip(text) == "not needed here:" + rest ==>
      ReasonIn(text).value.text == Texts.Strip(rest)
  {
    var t := Texts.Strip(text);
    assert DONE_WORD[0] != SKIP_WORD[0];
    if DONE_WORD <= t {
      assert t == "done:" + t[5..];
    }
    if SKIP_WORD <= t {
      assert t == "not needed here:" + t[16..];
    }
    forall rest | t == "done:" + rest || t == "not needed here:" + rest
      ensures ReasonIn(text).Some? && ReasonIn(text).value.text == Texts.Strip(rest)
    {
      assert t == "done:" + rest ==> t[5..] == rest;
      assert t == "not needed here:" + rest ==> t[16..] == rest;
    }
  }

  /** The reason found under a step line: the step's own text comes first. */
  function ReasonRead(text: string, reason: Option<Note>): Option<Note> {
    if ReasonIn(text).Some? then ReasonIn(text) else reason
  }

  /** A box as re-rendering writes it: the library's title and text, and the reason; or folded away, without text and
      without reason while it is open. */
  function Redrawn(lib: Library, boxes: seq<Box>, i: nat): Box
    requires i < |boxes| && InRange(lib, boxes[i])
  {
    var b := boxes[i];
    b.(title := Shows(lib, b).title,
       reason := if i < FirstOpen(boxes) + REVEAL then ReasonRead(Shows(lib, b).text, b.reason)
                 else if b.mark != Open then b.reason else None)
  }

  /** The walk after re-rendering; when a source step is gone it is left as it was. */
  function Rendered(lib: Library, boxes: seq<Box>): (r: seq<Box>)
    ensures |r| == |boxes|
  {
    if AllInRange(lib, boxes)
    then seq(|boxes|, i requires 0 <= i < |boxes| => assert InRange(lib, boxes[i]); Redrawn(lib, boxes, i))
    else boxes
  }

  /** plan: the numbers the plan beside the walk places, when it was written. */
  datatype TickCall = TickCall(done: set<int>, skip: set<int>, because: string, note: string,
                               isReason: bool, plan: Option<set<int>>)

  predicate HasNumber(boxes: seq<Box>, n: int) {
    exists i :: 0 <= i < |boxes| && boxes[i].number == n
  }

  predicate TickAccepted(boxes: seq<Box>, t: TickCall) {
    && t.done + t.skip != {} && t.done !! t.skip
    && (t.skip != {} ==> t.because != "" && t.isReason)
    && (t.done != {} ==> t.note != "")
    && t.plan.Some? && t.done + t.skip <= t.plan.value
    && forall n :: n in t.done + t.skip ==> HasNumber(boxes, n)
  }

  function TickedBox(b: Box, t: TickCall): Box {
    if b.number in t.done then b.(mark := Done, reason := Some(Note(Done, t.note)))
    else if b.number in t.skip then b.(mark := NotNeeded, reason := Some(Note(NotNeeded, t.because)))
    else b
  }

  function Ticked(boxes: seq<Box>, t: TickCall): (r: seq<Box>)
    ensures |r| == |boxes|
  {
    seq(|boxes|, i requires 0 <= i < |boxes| => TickedBox(boxes[i], t))
  }

  /** The first box with this number; |boxes| when there is none. */
  function IndexOf(boxes: seq<Box>, n: int): (i: nat)
    ensures i <= |boxes|
    ensures i < |boxes| ==> boxes[i].number == n
    ensures forall k :: 0 <= k < i ==> boxes[k].number != n
  {
    if boxes == [] || boxes[0].number == n then 0 else
    var i := IndexOf(boxes[1..], n);
    assert forall k :: 0 < k <= i && k < |boxes| ==> boxes[k] == boxes[1..][k - 1];
    1 + i
  }

  /** The number names a box, and the box a step the library has. */
  predicate Stands(lib: Library, boxes: seq<Box>, n: int) {
    var i := IndexOf(boxes, n);
    i < |boxes| && InRange(lib, boxes[i])
  }

  datatype State = State(lib: Library, boxes: seq<Box>)

  datatype Command =
    | Tick(call: TickCall)
    | EditAt(number: int, change: StepChange)
    | AddAfter(number: int, step: Step)
    | RemoveAt(number: int)

  /** The step an edit finds by the title of the one the box shows. */
  function Found(lib: Library, b: Box): Step
    requires InRange(lib, b)
  {
    assert lib[b.source][b.step - 1].title == Shows(lib, b).title;
    lib[b.source][FindTitle(lib[b.source], Shows(lib, b).title)]
  }

  lemma FoundIsShown(s: State, i: nat)
    requires Agrees(s) && i < |s.boxes|
    ensures InRange(s.lib, s.boxes[i]) && Found(s.lib, s.boxes[i]) == Shows(s.lib, s.boxes[i])
  {
    assert Faithful(s.lib, s.boxes[i]);
    FindUnique(s.lib[s.boxes[i].source], s.boxes[i].step - 1);
  }

  /** The store edit a command writes through to the procedure its box comes from. */
  function WritesThrough(s: State, c: Command): Edit
    requires !c.Tick? && Stands(s.lib, s.boxes, c.number)
  {
    var b := s.boxes[IndexOf(s.boxes, c.number)];
    var title := Shows(s.lib, b).title;
    match c
    case EditAt(_, change) => ChangeStep(b.source, title, change)
    case AddAfter(_, step) => AddSteps(b.source, [step], Some(title))
    case RemoveAt(_) => RemoveOne(b.source, title)
  }

  /** Later steps of the same procedure move by one when a step goes in or out before them. */
  function Shifted(b: Box, at: Box, delta: int): Box
    requires delta == 1 || delta == -1
  {
    if b.source == at.source && b.step > at.step then b.(step := b.step + delta) else b
  }

  function ShiftAll(boxes: seq<Box>, at: Box, delta: int): (r: seq<Box>)
    requires delta == 1 || delta == -1
    ensures |r| == |boxes|
  {
    seq(|boxes|, i requires 0 <= i < |boxes| => Shifted(boxes[i], at, delta))
  }

  function Renumbered(boxes: seq<Box>): (r: seq<Box>)
    ensures |r| == |boxes|
  {
    seq(|boxes|, i requires 0 <= i < |boxes| => boxes[i].(number := i + 1))
  }

  /** The boxes a command leaves before re-rendering. */
  function Rewritten(s: State, c: Command): seq<Box>
    requires !c.Tick? && Stands(s.lib, s.boxes, c.number)
  {
    var i := IndexOf(s.boxes, c.number);
    var b := s.boxes[i];
    match c
    case EditAt(_, change) =>
      s.boxes[i := b.(title := Changed(Shows(s.lib, b), change).title, reason := ReasonIn(Changed(Found(s.lib, b), change).text))]
    case AddAfter(_, step) =>
      var moved := ShiftAll(s.boxes, b, 1);
      Renumbered(moved[..i + 1] + [Box(b.number + 1, Open, step.title, b.source, b.step + 1, ReasonIn(step.text))] + moved[i + 1..])
    case RemoveAt(_) =>
      var moved := ShiftAll(s.boxes, b, -1);
      Renumbered(moved[..i] + moved[i + 1..])
  }

  /** None: the command is refused, and neither the walk nor the library changes. */
  ghost function After(s: State, c: Command): Option<State> {
    if c.Tick? then
      if TickAccepted(s.boxes, c.call) then Some(State(s.lib, Rendered(s.lib, Ticked(s.boxes, c.call)))) else None
    else if !Stands(s.lib, s.boxes, c.number) then None
    else
      var lib := Effect(s.lib, WritesThrough(s, c));
      if lib.Some? then Some(State(lib.value, Rendered(lib.value, Rewritten(s, c)))) else None
  }

  ghost function AfterRun(s: State, commands: seq<Command>): State {
    if commands == [] then s else
    var before := AfterRun(s, commands[..|commands| - 1]);
    var after := After(before, commands[|commands| - 1]);
    if after.Some? then after.value else before
  }

  /** The walk is a view of the library: numbered from one, every step shown at most once and as it reads. */
  ghost predicate Agrees(s: State) {
    && (forall i :: 0 <= i < |s.boxes| ==> s.boxes[i].number == i + 1)
    && (forall i :: 0 <= i < |s.boxes| ==> Faithful(s.lib, s.boxes[i]))
    && forall i, j :: 0 <= i < j < |s.boxes| ==> s.boxes[i].source != s.boxes[j].source || s.boxes[i].step != s.boxes[j].step
  }

  ghost predicate Faithful(lib: Library, b: Box) {
    InRange(lib, b) && b.title == Shows(lib, b).title && ValidDocument(lib[b.source])
  }

  /** Each closed box carries the reason it was closed with, and no open one carries any. */
  ghost predicate Explained(boxes: seq<Box>) {
    forall i :: 0 <= i < |boxes| ==>
      if boxes[i].mark == Open then boxes[i].reason == None
      else boxes[i].reason.Some? && boxes[i].reason.value.mark == boxes[i].mark
  }

  ghost predicate OpenUnexplained(boxes: seq<Box>) {
    forall i :: 0 <= i < |boxes| && boxes[i].mark == Open ==> boxes[i].reason == None
  }

  /** No step's text starts like a reason. */
  ghost predicate Quiet(lib: Library) {
    forall id, s :: id in lib && s in lib[id] ==> ReasonIn(s.text) == None
  }

  predicate QuietCommand(c: Command) {
    match c
    case EditAt(_, change) => change.text.Some? ==> ReasonIn(change.text.value) == None
    case AddAfter(_, step) => ReasonIn(step.text) == None
    case _ => true
  }

  /** No shown step's text is taken for another reason than its box's. */
  ghost predicate ReadsBack(lib: Library, boxes: seq<Box>)
    requires AllInRange(lib, boxes)
  {
    forall i :: 0 <= i < |boxes| && i < FirstOpen(boxes) + REVEAL ==>
      InRange(lib, boxes[i]) && ReasonRead(Shows(lib, boxes[i]).text, boxes[i].reason) == boxes[i].reason
  }

  ghost function OpenNumbers(boxes: seq<Box>): set<int> {
    set i | 0 <= i < |boxes| && boxes[i].mark == Open :: boxes[i].number as int
  }

  lemma IndexOfNumber(s: State, n: int)
    requires Agrees(s)
    ensures Stands(s.lib, s.boxes, n) <==> 1 <= n <= |s.boxes|
    ensures 1 <= n <= |s.boxes| ==> IndexOf(s.boxes, n) == n - 1
  {
    if 1 <= n <= |s.boxes| {
      assert s.boxes[n - 1].number == n;
    }
  }

  lemma AgreesInRange(s: State)
    requires Agrees(s)
    ensures AllInRange(s.lib, s.boxes)
  {
    forall i | 0 <= i < |s.boxes| ensures InRange(s.lib, s.boxes[i]) {
      assert Faithful(s.lib, s.boxes[i]);
    }
  }

  /** Re-rendering a walk that agrees changes nothing but reasons: those of open boxes folded away, and those for which
      a step's own text is taken. */
  lemma RenderAgrees(s: State)
    requires Agrees(s)
    ensures var after := Rendered(s.lib, s.boxes);
      && (forall i :: 0 <= i < |s.boxes| ==> after[i] == s.boxes[i].(reason := after[i].reason))
      && Agrees(State(s.lib, after)) && OpenNumbers(after) == OpenNumbers(s.boxes)
      && (Quiet(s.lib) && (Explained(s.boxes) || OpenUnexplained(s.boxes)) ==> after == s.boxes)
  {
    hide Quiet, Explained, OpenUnexplained;
    RenderedAgrees(s);
    SameOpenNumbers(s.boxes, Rendered(s.lib, s.boxes));
    if Quiet(s.lib) && (Explained(s.boxes) || OpenUnexplained(s.boxes)) {
      QuietReadsBack(s);
      RenderKeeps(s);
    }
  }

  lemma RenderedAgrees(s: State)
    requires Agrees(s)
    ensures var after := Rendered(s.lib, s.boxes);
      && (forall i :: 0 <= i < |s.boxes| ==> after[i] == s.boxes[i].(reason := after[i].reason))
      && Agrees(State(s.lib, after))
  {
    var after := Rendered(s.lib, s.boxes);
    AgreesInRange(s);
    hide FirstOpen, ReasonRead, ValidDocument;
    forall i | 0 <= i < |s.boxes|
      ensures after[i] == s.boxes[i].(reason := after[i].reason) && Faithful(s.lib, after[i])
    {
      assert Faithful(s.lib, s.boxes[i]);
      assert after[i] == Redrawn(s.lib, s.boxes, i);
    }
    hide Rendered, Redrawn, Faithful;
  }

  lemma QuietReadsBack(s: State)
    requires Agrees(s) && Quiet(s.lib) && (Explained(s.boxes) || OpenUnexplained(s.boxes))
    ensures AllInRange(s.lib, s.boxes) && ReadsBack(s.lib, s.boxes) && OpenUnexplained(s.boxes)
  {
    AgreesInRange(s);
    hide ReasonIn, FirstOpen;
    forall i | 0 <= i < |s.boxes| ensures ReasonIn(Shows(s.lib, s.boxes[i]).text) == None {
      assert Shows(s.lib, s.boxes[i]) in s.lib[s.boxes[i].source];
    }
    hide Agrees;
  }

  /** With nothing under open boxes, re-rendering keeps every reason exactly when no shown text is taken for one. */
  lemma RenderKeeps(s: State)
    requires Agrees(s) && OpenUnexplained(s.boxes)
    ensures AllInRange(s.lib, s.boxes) && (Rendered(s.lib, s.boxes) == s.boxes <==> ReadsBack(s.lib, s.boxes))
  {
    AgreesInRange(s);
    var after := Rendered(s.lib, s.boxes);
    hide ReasonRead, FirstOpen;
    forall i | 0 <= i < |s.boxes|
      ensures after[i] == s.boxes[i] <==>
        (i < FirstOpen(s.boxes) + REVEAL ==> ReasonRead(Shows(s.lib, s.boxes[i]).text, s.boxes[i].reason) == s.boxes[i].reason)
    {
      assert Faithful(s.lib, s.boxes[i]);
      assert after[i] == Redrawn(s.lib, s.boxes, i);
    }
    hide Agrees, Rendered, Redrawn;
    if after == s.boxes {
      assert ReadsBack(s.lib, s.boxes);
    }
  }

  lemma SameOpenNumbers(a: seq<Box>, b: seq<Box>)
    requires |a| == |b| && forall i :: 0 <= i < |a| ==> a[i].number == b[i].number && a[i].mark == b[i].mark
    ensures OpenNumbers(a) == OpenNumbers(b)
  {
  }

  lemma TickedAgrees(s: State, t: TickCall)
    requires Agrees(s)
    ensures Agrees(State(s.lib, Ticked(s.boxes, t)))
    ensures Explained(s.boxes) ==> Explained(Ticked(s.boxes, t))
  {
    var ticked := Ticked(s.boxes, t);
    forall i | 0 <= i < |ticked| ensures Faithful(s.lib, ticked[i]) && ticked[i].number == i + 1 {
      assert Faithful(s.lib, s.boxes[i]);
    }
  }

  lemma TickedOpen(s: State, t: TickCall)
    requires Agrees(s)
    ensures OpenNumbers(Ticked(s.boxes, t)) == OpenNumbers(s.boxes) - (t.done + t.skip)
  {
    hide Faithful;
    var ticked := Ticked(s.boxes, t);
    forall n ensures n in OpenNumbers(ticked) <==> n in OpenNumbers(s.boxes) && n !in t.done + t.skip {
      if n in OpenNumbers(s.boxes) && n !in t.done + t.skip {
        var i :| 0 <= i < |s.boxes| && s.boxes[i].mark == Open && s.boxes[i].number == n;
        assert ticked[i] == s.boxes[i];
      }
    }
  }

  /**
   A successful tick takes exactly the asked numbers out of the open ones; in an explained walk of quiet texts every asked box
   then carries this call's words and no other box has changed at all.
   */
  lemma TickCloses(s: State, t: TickCall)
    requires Agrees(s) && After(s, Tick(t)).Some?
    ensures var after := After(s, Tick(t)).value;
      && Agrees(after) && after.lib == s.lib
      && OpenNumbers(after.boxes) == OpenNumbers(s.boxes) - (t.done + t.skip)
      && (Quiet(s.lib) && Explained(s.boxes) ==> Explained(after.boxes) && after.boxes == Ticked(s.boxes, t))
  {
    hide *;
    TickStep(s, t);
    TickedAgrees(s, t);
    TickedOpen(s, t);
    RenderAgrees(State(s.lib, Ticked(s.boxes, t)));
  }

  /** Whatever a tick changes, it changes at boxes it names, and only with what that asks for: a plan that places them, a
      note for done steps, a reason that is one for skipped ones. */
  lemma TickAsks(s: State, t: TickCall, k: nat)
    requires Agrees(s) && After(s, Tick(t)).Some? && k < |s.boxes|
    requires After(s, Tick(t)).value.boxes[k].mark != s.boxes[k].mark
    ensures t.plan.Some? && k + 1 in t.plan.value
    ensures var now := After(s, Tick(t)).value.boxes[k];
      || (k + 1 in t.done && now.mark == Done && t.note != "")
      || (k + 1 in t.skip && now.mark == NotNeeded && t.because != "" && t.isReason)
  {
    assert TickAccepted(s.boxes, t) && s.boxes[k].number == k + 1;
    TickedMark(s, t, k);
    hide After, Agrees;
  }

  lemma TickedMark(s: State, t: TickCall, k: nat)
    requires Agrees(s) && After(s, Tick(t)).Some? && k < |s.boxes|
    ensures |After(s, Tick(t)).value.boxes| == |s.boxes|
    ensures After(s, Tick(t)).value.boxes[k].mark == TickedBox(s.boxes[k], t).mark
  {
    hide *;
    TickStep(s, t);
    TickedAgrees(s, t);
    RenderAgrees(State(s.lib, Ticked(s.boxes, t)));
    TickedAt(s.boxes, t, k);
  }

  lemma TickedAt(boxes: seq<Box>, t: TickCall, k: nat)
    requires k < |boxes|
    ensures Ticked(boxes, t)[k] == TickedBox(boxes[k], t)
  {
  }

  lemma TickStep(s: State, t: TickCall)
    requires After(s, Tick(t)).Some?
    ensures After(s, Tick(t)) == Some(State(s.lib, Rendered(s.lib, Ticked(s.boxes, t))))
  {
  }

  /** The source document after a command on its step at index k. */
  function DocumentAfter(d: Document, k: nat, c: Command): Document
    requires k < |d| && !c.Tick?
  {
    match c
    case EditAt(_, change) => d[k := Changed(d[k], change)]
    case AddAfter(_, step) => d[..k + 1] + [step] + d[k + 1..]
    case RemoveAt(_) => d[..k] + d[k + 1..]
  }

  lemma EditWritten(lib: Library, id: Id, k: nat, change: StepChange)
    requires id in lib && k < |lib[id]| && FindTitle(lib[id], lib[id][k].title) == k
    requires Effect(lib, ChangeStep(id, lib[id][k].title, change)).Some?
    ensures var d := lib[id][k := Changed(lib[id][k], change)];
      Effect(lib, ChangeStep(id, lib[id][k].title, change)).value == lib[id := d] && ValidDocument(d)
  {
    hide ValidDocument, FindTitle, NewLinkAllowed;
  }

  lemma AddWritten(lib: Library, id: Id, k: nat, step: Step)
    requires id in lib && k < |lib[id]| && FindTitle(lib[id], lib[id][k].title) == k
    requires Effect(lib, AddSteps(id, [step], Some(lib[id][k].title))).Some?
    ensures var d := lib[id][..k + 1] + [step] + lib[id][k + 1..];
      Effect(lib, AddSteps(id, [step], Some(lib[id][k].title))).value == lib[id := d] && ValidDocument(d)
  {
    hide ValidDocument, FindTitle, EntryFits;
  }

  lemma RemoveWritten(lib: Library, id: Id, k: nat)
    requires id in lib && k < |lib[id]| && FindTitle(lib[id], lib[id][k].title) == k
    requires Effect(lib, RemoveOne(id, lib[id][k].title)).Some?
    ensures var d := lib[id][..k] + lib[id][k + 1..];
      Effect(lib, RemoveOne(id, lib[id][k].title)).value == lib[id := d] && ValidDocument(d)
  {
    hide ValidDocument, FindTitle;
  }

  /** What a command writes through, when the walk agrees: the very step its box shows, found by title. */
  lemma WrittenDocument(s: State, c: Command)
    requires Agrees(s) && !c.Tick? && Stands(s.lib, s.boxes, c.number) && Effect(s.lib, WritesThrough(s, c)).Some?
    ensures var b := s.boxes[c.number - 1];
      && InRange(s.lib, b)
      && Effect(s.lib, WritesThrough(s, c)).value == s.lib[b.source := DocumentAfter(s.lib[b.source], b.step - 1, c)]
      && ValidDocument(DocumentAfter(s.lib[b.source], b.step - 1, c))
  {
    IndexOfNumber(s, c.number);
    var b := s.boxes[c.number - 1];
    assert Faithful(s.lib, b);
    FindUnique(s.lib[b.source], b.step - 1);
    hide Agrees, Faithful, ValidDocument, FindTitle, Effect;
    match c
    case EditAt(_, change) => EditWritten(s.lib, b.source, b.step - 1, change);
    case AddAfter(_, step) => AddWritten(s.lib, b.source, b.step - 1, step);
    case RemoveAt(_) => RemoveWritten(s.lib, b.source, b.step - 1);
  }

  lemma EditAgrees(s: State, i: nat, change: StepChange, after: Library, boxes: seq<Box>, note: Option<Note>)
    requires Agrees(s) && i < |s.boxes| && InRange(s.lib, s.boxes[i])
    requires var b := s.boxes[i]; var d := s.lib[b.source][b.step - 1 := Changed(Shows(s.lib, b), change)];
      && ValidDocument(d) && after == s.lib[b.source := d]
      && boxes == s.boxes[i := b.(title := Changed(Shows(s.lib, b), change).title, reason := note)]
    ensures Agrees(State(after, boxes))
  {
    hide ValidDocument;
    forall j | 0 <= j < |boxes| ensures Faithful(after, boxes[j]) {
      assert Faithful(s.lib, s.boxes[j]);
    }
  }

  lemma AddAgrees(s: State, i: nat, step: Step, after: Library, boxes: seq<Box>, note: Option<Note>)
    requires Agrees(s) && i < |s.boxes| && InRange(s.lib, s.boxes[i])
    requires var b := s.boxes[i]; var d := s.lib[b.source];
      && var grown := d[..b.step] + [step] + d[b.step..];
      && ValidDocument(grown) && after == s.lib[b.source := grown]
      && var moved := ShiftAll(s.boxes, b, 1);
         boxes == Renumbered(moved[..i + 1] + [Box(b.number + 1, Open, step.title, b.source, b.step + 1, note)] + moved[i + 1..])
    ensures Agrees(State(after, boxes))
  {
    hide ValidDocument;
    var b := s.boxes[i];
    forall j | 0 <= j < |boxes|
      ensures Faithful(after, boxes[j]) && boxes[j].number == j + 1
      ensures j != i + 1 ==> var o := s.boxes[if j <= i then j else j - 1];
        boxes[j] == Shifted(o, b, 1).(number := j + 1)
      ensures j == i + 1 ==> boxes[j].source == b.source && boxes[j].step == b.step + 1
    {
      if j != i + 1 {
        assert Faithful(s.lib, s.boxes[if j <= i then j else j - 1]);
      }
    }
    forall j, k | 0 <= j < k < |boxes|
      ensures boxes[j].source != boxes[k].source || boxes[j].step != boxes[k].step
    {
    }
  }

  lemma RemoveAgrees(s: State, i: nat, after: Library, boxes: seq<Box>)
    requires Agrees(s) && i < |s.boxes| && InRange(s.lib, s.boxes[i])
    requires var b := s.boxes[i]; var d := s.lib[b.source];
      && var shrunk := d[..b.step - 1] + d[b.step..];
      && ValidDocument(shrunk) && after == s.lib[b.source := shrunk]
      && var moved := ShiftAll(s.boxes, b, -1);
         boxes == Renumbered(moved[..i] + moved[i + 1..])
    ensures Agrees(State(after, boxes))
  {
    hide ValidDocument, Faithful;
    var b := s.boxes[i];
    forall j | 0 <= j < |boxes|
      ensures Faithful(after, boxes[j]) && boxes[j].number == j + 1
      ensures var o := s.boxes[if j < i then j else j + 1];
        boxes[j] == Shifted(o, b, -1).(number := j + 1) && (o.source != b.source || o.step != b.step)
    {
      var o := s.boxes[if j < i then j else j + 1];
      assert boxes[j] == Shifted(o, b, -1).(number := j + 1);
      ShrunkFaithful(s.lib, b, o, after, j + 1);
    }
    forall j, k | 0 <= j < k < |boxes|
      ensures boxes[j].source != boxes[k].source || boxes[j].step != boxes[k].step
    {
    }
  }

  /** A box of another step shows its step where the removal leaves it. */
  lemma ShrunkFaithful(lib: Library, b: Box, o: Box, after: Library, number: nat)
    requires InRange(lib, b) && Faithful(lib, o) && (o.source != b.source || o.step != b.step)
    requires var d := lib[b.source]; var shrunk := d[..b.step - 1] + d[b.step..];
      ValidDocument(shrunk) && after == lib[b.source := shrunk]
    ensures Faithful(after, Shifted(o, b, -1).(number := number))
  {
    hide ValidDocument;
  }

  lemma CommandStep(s: State, c: Command)
    requires !c.Tick? && After(s, c).Some?
    ensures Stands(s.lib, s.boxes, c.number) && Effect(s.lib, WritesThrough(s, c)).Some?
    ensures var lib := Effect(s.lib, WritesThrough(s, c)).value;
      After(s, c).value == State(lib, Rendered(lib, Rewritten(s, c)))
  {
  }

  /** Before it is re-rendered the walk agrees already. */
  lemma RewrittenAgrees(s: State, c: Command)
    requires Agrees(s) && !c.Tick? && Stands(s.lib, s.boxes, c.number) && Effect(s.lib, WritesThrough(s, c)).Some?
    ensures Agrees(State(Effect(s.lib, WritesThrough(s, c)).value, Rewritten(s, c)))
  {
    hide Effect, ValidDocument, Agrees, ShiftAll, Renumbered, Changed, ReasonIn;
    WrittenDocument(s, c);
    IndexOfNumber(s, c.number);
    var i := c.number - 1;
    var lib, boxes := Effect(s.lib, WritesThrough(s, c)).value, Rewritten(s, c);
    match c {
      case EditAt(_, change) => EditAgrees(s, i, change, lib, boxes, ReasonIn(Changed(Found(s.lib, s.boxes[i]), change).text));
      case AddAfter(_, step) => AddAgrees(s, i, step, lib, boxes, ReasonIn(step.text));
      case RemoveAt(_) => RemoveAgrees(s, i, lib, boxes);
    }
  }

  /** Every command that is not refused leaves a walk that agrees with the library it leaves. */
  lemma CommandKeepsAgreement(s: State, c: Command)
    requires Agrees(s) && After(s, c).Some?
    ensures Agrees(After(s, c).value)
  {
    hide *;
    if c.Tick? {
      TickCloses(s, c.call);
    } else {
      CommandStep(s, c);
      RewrittenAgrees(s, c);
      RenderAgrees(State(Effect(s.lib, WritesThrough(s, c)).value, Rewritten(s, c)));
    }
  }

  ghost predicate QuietDocument(d: Document) {
    forall s :: s in d ==> ReasonIn(s.text) == None
  }

  lemma QuietEdit(d: Document, k: nat, c: Command)
    requires k < |d| && QuietDocument(d) && QuietCommand(c) && !c.Tick?
    ensures QuietDocument(DocumentAfter(d, k, c))
    ensures c.EditAt? ==> ReasonIn(Changed(d[k], c.change).text) == None
  {
    hide ReasonIn;
    assert d[k] in d;
    forall x | x in DocumentAfter(d, k, c) ensures ReasonIn(x.text) == None {
      if x !in d {
        assert c.EditAt? || c.AddAfter?;
      }
    }
  }

  /** Quiet commands keep the library quiet, and what they write carries no reason. */
  lemma QuietStays(s: State, c: Command)
    requires Agrees(s) && Quiet(s.lib) && QuietCommand(c) && !c.Tick?
    requires Stands(s.lib, s.boxes, c.number) && Effect(s.lib, WritesThrough(s, c)).Some?
    ensures Quiet(Effect(s.lib, WritesThrough(s, c)).value)
    ensures 1 <= c.number <= |s.boxes| && InRange(s.lib, s.boxes[c.number - 1])
    ensures c.EditAt? ==> ReasonIn(Changed(Found(s.lib, s.boxes[c.number - 1]), c.change).text) == None
  {
    WrittenDocument(s, c);
    IndexOfNumber(s, c.number);
    var b := s.boxes[c.number - 1];
    FoundIsShown(s, c.number - 1);
    hide Found, ReasonIn, Effect, ValidDocument, Agrees, WritesThrough, IndexOf, DocumentAfter, Changed, QuietCommand;
    assert QuietDocument(s.lib[b.source]);
    QuietEdit(s.lib[b.source], b.step - 1, c);
  }

  ghost predicate LosesReason(s: State, c: Command)
    requires c.EditAt? ==> 1 <= c.number <= |s.boxes|
  {
    c.EditAt? && s.boxes[c.number - 1].mark != Open
  }

  lemma ShiftExplained(boxes: seq<Box>, at: Box, delta: int)
    requires Explained(boxes) && (delta == 1 || delta == -1)
    ensures Explained(ShiftAll(boxes, at, delta))
  {
    var moved := ShiftAll(boxes, at, delta);
    assert forall i :: 0 <= i < |boxes| ==> moved[i].mark == boxes[i].mark && moved[i].reason == boxes[i].reason;
  }

  lemma RenumberExplained(boxes: seq<Box>)
    requires Explained(boxes)
    ensures Explained(Renumbered(boxes))
  {
    var after := Renumbered(boxes);
    assert forall i :: 0 <= i < |boxes| ==> after[i].mark == boxes[i].mark && after[i].reason == boxes[i].reason;
  }

  lemma SpliceExplained(boxes: seq<Box>, mid: seq<Box>, i: nat, j: nat)
    requires Explained(boxes) && Explained(mid) && i <= |boxes| && j <= |boxes|
    ensures Explained(boxes[..i] + mid + boxes[j..])
    ensures Explained(boxes[..i] + boxes[j..])
  {
  }

  lemma RewrittenExplained(s: State, c: Command)
    requires Agrees(s) && Explained(s.boxes) && !c.Tick? && Stands(s.lib, s.boxes, c.number)
    requires 1 <= c.number <= |s.boxes| && InRange(s.lib, s.boxes[c.number - 1]) && QuietCommand(c)
    requires c.EditAt? ==> ReasonIn(Changed(Found(s.lib, s.boxes[c.number - 1]), c.change).text) == None
    ensures !LosesReason(s, c) ==> Explained(Rewritten(s, c))
    ensures LosesReason(s, c) ==> |Rewritten(s, c)| == |s.boxes|
    ensures LosesReason(s, c) ==> Rewritten(s, c)[c.number - 1].mark != Open
    ensures LosesReason(s, c) ==> Rewritten(s, c)[c.number - 1].reason == None
    ensures LosesReason(s, c) ==> OpenUnexplained(Rewritten(s, c))
  {
    hide InRange, Changed, FindTitle, Agrees, ShiftAll, Renumbered, ReasonIn, Found;
    IndexOfNumber(s, c.number);
    var i := c.number - 1;
    var b := s.boxes[i];
    match c
    case EditAt(_, change) =>
      hide Explained, OpenUnexplained;
      EditExplained(s.boxes, i, Changed(Shows(s.lib, b), change).title);
    case AddAfter(_, step) =>
      hide Explained;
      var added := Box(b.number + 1, Open, step.title, b.source, b.step + 1, None);
      OpenExplained(added);
      ShiftExplained(s.boxes, b, 1);
      SpliceExplained(ShiftAll(s.boxes, b, 1), [added], i + 1, i + 1);
      RenumberExplained(ShiftAll(s.boxes, b, 1)[..i + 1] + [added] + ShiftAll(s.boxes, b, 1)[i + 1..]);
    case RemoveAt(_) =>
      hide Explained;
      ShiftExplained(s.boxes, b, -1);
      OpenExplained(b.(mark := Open, reason := None));
      SpliceExplained(ShiftAll(s.boxes, b, -1), [b.(mark := Open, reason := None)], i, i + 1);
      RenumberExplained(ShiftAll(s.boxes, b, -1)[..i] + ShiftAll(s.boxes, b, -1)[i + 1..]);
  }

  lemma EditExplained(boxes: seq<Box>, i: nat, title: string)
    requires i < |boxes| && Explained(boxes)
    ensures var after := boxes[i := boxes[i].(title := title, reason := None)];
      (boxes[i].mark == Open ==> Explained(after)) && OpenUnexplained(after)
  {
  }

  lemma OpenExplained(b: Box)
    requires b.mark == Open && b.reason == None
    ensures Explained([b])
  {
  }

  /** With quiet texts an edit of a closed box loses its reason; every other command keeps the walk explained. */
  lemma CommandKeepsReasons(s: State, c: Command)
    requires Agrees(s) && Explained(s.boxes) && After(s, c).Some? && Quiet(s.lib) && QuietCommand(c)
    requires c.EditAt? ==> 1 <= c.number <= |s.boxes|
    ensures Explained(After(s, c).value.boxes) <==> !LosesReason(s, c)
  {
    hide Agrees, After, Rewritten, Rendered, Effect, WritesThrough, Stands, Quiet, QuietCommand, ReasonIn;
    if c.Tick? {
      TickCloses(s, c.call);
    } else {
      CommandStep(s, c);
      RewrittenAgrees(s, c);
      QuietStays(s, c);
      RewrittenExplained(s, c);
      RenderAgrees(State(Effect(s.lib, WritesThrough(s, c)).value, Rewritten(s, c)));
    }
  }

  /** Edits only of boxes that are open when the edit comes. */
  ghost predicate EditsOpen(s: State, commands: seq<Command>) {
    forall k :: 0 <= k < |commands| && commands[k].EditAt? ==>
      var boxes := AfterRun(s, commands[..k]).boxes;
      1 <= commands[k].number <= |boxes| ==> boxes[commands[k].number - 1].mark == Open
  }

  /** No text in the library or in a command starts like a reason. */
  ghost predicate QuietRun(s: State, commands: seq<Command>) {
    Quiet(s.lib) && forall c :: c in commands ==> QuietCommand(c)
  }

  lemma QuietAfter(s: State, c: Command)
    requires Agrees(s) && Quiet(s.lib) && QuietCommand(c) && After(s, c).Some?
    ensures Quiet(After(s, c).value.lib)
  {
    hide Quiet, QuietCommand, Agrees, ReasonIn;
    if !c.Tick? {
      CommandStep(s, c);
      QuietStays(s, c);
    }
  }

  /** Over every run of commands, refused ones included, the walk stays a view of the library, and with quiet texts stays
      explained. */
  lemma {:induction false} RunKeepsView(s: State, commands: seq<Command>)
    requires Agrees(s)
    ensures Agrees(AfterRun(s, commands))
    ensures QuietRun(s, commands) ==> Quiet(AfterRun(s, commands).lib)
    ensures QuietRun(s, commands) && Explained(s.boxes) && EditsOpen(s, commands) ==> Explained(AfterRun(s, commands).boxes)
  {
    hide After, Agrees, Explained, Quiet, QuietCommand;
    if commands != [] {
      var n := |commands| - 1;
      RunKeepsView(s, commands[..n]);
      assert QuietRun(s, commands) ==> QuietRun(s, commands[..n]) && QuietCommand(commands[n]) by {
        assert commands[n] in commands;
      }
      var before := AfterRun(s, commands[..n]);
      assert EditsOpen(s, commands) ==> EditsOpen(s, commands[..n]) by {
        assert forall k :: 0 <= k < n ==> commands[..n][k] == commands[k] && commands[..n][..k] == commands[..k];
      }
      if After(before, commands[n]).Some? {
        CommandKeepsAgreement(before, commands[n]);
        if QuietRun(s, commands) {
          QuietAfter(before, commands[n]);
        }
        if commands[n].EditAt? {
          CommandStep(before, commands[n]);
          IndexOfNumber(before, commands[n].number);
        }
        if QuietRun(s, commands) && Explained(before.boxes) {
          CommandKeepsReasons(before, commands[n]);
        }
      }
    }
  }

  // ---- whose words a closed box carries

  function ReasonsOf(boxes: seq<Box>): (reasons: seq<Option<Note>>)
    ensures |reasons| == |boxes| && forall i :: 0 <= i < |boxes| ==> reasons[i] == boxes[i].reason
  {
    seq(|boxes|, i requires 0 <= i < |boxes| => boxes[i].reason)
  }

  /** What a tick writes under the box at index i, or what was there. */
  function ReasonTicked(t: TickCall, i: nat, was: Option<Note>): Option<Note> {
    if i + 1 in t.done then Some(Note(Done, t.note))
    else if i + 1 in t.skip then Some(Note(NotNeeded, t.because))
    else was
  }

  /** The reasons an accepted command leaves, in the order of the boxes. */
  function ReasonsAfter(c: Command, reasons: seq<Option<Note>>): seq<Option<Note>> {
    match c
    case Tick(t) => seq(|reasons|, i requires 0 <= i < |reasons| => ReasonTicked(t, i, reasons[i]))
    case EditAt(n, _) => if 1 <= n <= |reasons| then reasons[n - 1 := None] else reasons
    case AddAfter(n, _) => if 1 <= n <= |reasons| then reasons[..n] + [None] + reasons[n..] else reasons
    case RemoveAt(n) => if 1 <= n <= |reasons| then reasons[..n - 1] + reasons[n..] else reasons
  }

  lemma TickedReasons(s: State, t: TickCall)
    requires Agrees(s) && OpenUnexplained(s.boxes)
    ensures ReasonsOf(Ticked(s.boxes, t)) == ReasonsAfter(Tick(t), ReasonsOf(s.boxes))
    ensures OpenUnexplained(Ticked(s.boxes, t))
  {
    hide Faithful;
  }

  lemma ReasonsAround(boxes: seq<Box>, at: Box, delta: int, i: nat, j: nat, mid: seq<Box>)
    requires (delta == 1 || delta == -1) && i <= j <= |boxes| && OpenUnexplained(boxes) && OpenUnexplained(mid)
    ensures var after := Renumbered(ShiftAll(boxes, at, delta)[..i] + mid + ShiftAll(boxes, at, delta)[j..]);
      && ReasonsOf(after) == ReasonsOf(boxes)[..i] + ReasonsOf(mid) + ReasonsOf(boxes)[j..]
      && OpenUnexplained(after)
  {
    var moved := ShiftAll(boxes, at, delta);
    var joined := moved[..i] + mid + moved[j..];
    forall k | 0 <= k < |joined|
      ensures Renumbered(joined)[k].reason == joined[k].reason && Renumbered(joined)[k].mark == joined[k].mark
      ensures k < i ==> joined[k].reason == boxes[k].reason && joined[k].mark == boxes[k].mark
      ensures i <= k < i + |mid| ==> joined[k] == mid[k - i]
      ensures i + |mid| <= k ==> joined[k].reason == boxes[k - i - |mid| + j].reason && joined[k].mark == boxes[k - i - |mid| + j].mark
    {
    }
    hide ShiftAll, Renumbered;
  }

  lemma OneReason(b: Box)
    ensures ReasonsOf([b]) == [b.reason] && ReasonsOf([]) == []
    ensures b.reason == None ==> OpenUnexplained([b])
    ensures OpenUnexplained([])
  {
  }

  lemma EditReasons(boxes: seq<Box>, i: nat, title: string)
    requires i < |boxes| && OpenUnexplained(boxes)
    ensures var after := boxes[i := boxes[i].(title := title, reason := None)];
      ReasonsOf(after) == ReasonsOf(boxes)[i := None] && OpenUnexplained(after)
  {
  }

  lemma AddReasons(boxes: seq<Box>, i: nat, added: Box)
    requires i < |boxes| && OpenUnexplained(boxes) && added.reason == None
    ensures var moved := ShiftAll(boxes, boxes[i], 1); var after := Renumbered(moved[..i + 1] + [added] + moved[i + 1..]);
      ReasonsOf(after) == ReasonsOf(boxes)[..i + 1] + [None] + ReasonsOf(boxes)[i + 1..] && OpenUnexplained(after)
  {
    hide *;
    OneReason(added);
    ReasonsAround(boxes, boxes[i], 1, i + 1, i + 1, [added]);
  }

  lemma RemoveReasons(boxes: seq<Box>, i: nat)
    requires i < |boxes| && OpenUnexplained(boxes)
    ensures var moved := ShiftAll(boxes, boxes[i], -1); var after := Renumbered(moved[..i] + moved[i + 1..]);
      ReasonsOf(after) == ReasonsOf(boxes)[..i] + ReasonsOf(boxes)[i + 1..] && OpenUnexplained(after)
  {
    hide *;
    var moved := ShiftAll(boxes, boxes[i], -1);
    OneReason(boxes[i]);
    assert moved[..i] + [] == moved[..i] && ReasonsOf(boxes)[..i] + [] == ReasonsOf(boxes)[..i];
    ReasonsAround(boxes, boxes[i], -1, i, i + 1, []);
  }

  lemma RewrittenReasons(s: State, c: Command)
    requires Agrees(s) && OpenUnexplained(s.boxes) && !c.Tick? && Stands(s.lib, s.boxes, c.number)
    requires 1 <= c.number <= |s.boxes| && InRange(s.lib, s.boxes[c.number - 1]) && QuietCommand(c)
    requires c.EditAt? ==> ReasonIn(Changed(Found(s.lib, s.boxes[c.number - 1]), c.change).text) == None
    ensures ReasonsOf(Rewritten(s, c)) == ReasonsAfter(c, ReasonsOf(s.boxes)) && OpenUnexplained(Rewritten(s, c))
  {
    hide InRange, Changed, FindTitle, Agrees, ShiftAll, Renumbered, OpenUnexplained, ReasonIn, Found;
    IndexOfNumber(s, c.number);
    var i := c.number - 1;
    match c
    case EditAt(_, change) => EditReasons(s.boxes, i, Changed(Shows(s.lib, s.boxes[i]), change).title);
    case AddAfter(_, step) =>
      var b := s.boxes[i];
      AddReasons(s.boxes, i, Box(b.number + 1, Open, step.title, b.source, b.step + 1, None));
    case RemoveAt(_) => RemoveReasons(s.boxes, i);
  }

  /** With quiet texts every accepted command leaves the reasons as they were, but for the boxes it ticks, edits, adds or removes. */
  lemma CommandReasons(s: State, c: Command)
    requires Agrees(s) && OpenUnexplained(s.boxes) && After(s, c).Some? && Quiet(s.lib) && QuietCommand(c)
    ensures ReasonsOf(After(s, c).value.boxes) == ReasonsAfter(c, ReasonsOf(s.boxes))
    ensures OpenUnexplained(After(s, c).value.boxes)
  {
    hide *;
    if c.Tick? {
      TickStep(s, c.call);
      TickedAgrees(s, c.call);
      TickedReasons(s, c.call);
      RenderAgrees(State(s.lib, Ticked(s.boxes, c.call)));
    } else {
      CommandStep(s, c);
      RewrittenAgrees(s, c);
      QuietStays(s, c);
      RewrittenReasons(s, c);
      RenderAgrees(State(Effect(s.lib, WritesThrough(s, c)).value, Rewritten(s, c)));
    }
  }

  /**
   The words of the latest accepted tick that asked for the box now at index i, the box followed back through
   insertions and removals; None when no tick did since it was added or edited, and what it had at the start if it
   was there then.
   */
  ghost function Latest(s: State, commands: seq<Command>, i: nat): Option<Note> {
    if commands == [] then if i < |s.boxes| then s.boxes[i].reason else None
    else
      var earlier, c := commands[..|commands| - 1], commands[|commands| - 1];
      if After(AfterRun(s, earlier), c).None? then Latest(s, earlier, i)
      else
        match c
        case Tick(t) =>
          if i + 1 in t.done then Some(Note(Done, t.note))
          else if i + 1 in t.skip then Some(Note(NotNeeded, t.because))
          else Latest(s, earlier, i)
        case EditAt(n, _) => if i + 1 == n then None else Latest(s, earlier, i)
        case AddAfter(n, _) => if i < n then Latest(s, earlier, i) else if i == n then None else Latest(s, earlier, i - 1)
        case RemoveAt(n) => Latest(s, earlier, if i + 1 < n then i else i + 1)
  }

  lemma ReasonAt(c: Command, reasons: seq<Option<Note>>, i: nat)
    requires i < |ReasonsAfter(c, reasons)|
    requires !c.Tick? ==> 1 <= c.number <= |reasons|
    ensures match c
            case Tick(t) => i < |reasons| && ReasonsAfter(c, reasons)[i] == ReasonTicked(t, i, reasons[i])
            case EditAt(n, _) => i < |reasons| && ReasonsAfter(c, reasons)[i] == if i + 1 == n then None else reasons[i]
            case AddAfter(n, _) =>
              && (i > n ==> i - 1 < |reasons|) && (i < n ==> i < |reasons|)
              && ReasonsAfter(c, reasons)[i] == (if i < n then reasons[i] else if i == n then None else reasons[i - 1])
            case RemoveAt(n) =>
              var k := if i + 1 < n then i else i + 1;
              k < |reasons| && ReasonsAfter(c, reasons)[i] == reasons[k]
  {
  }

  /** One command further, the latest words are the ones the command leaves. */
  lemma LatestStep(s: State, commands: seq<Command>, reasons: seq<Option<Note>>, i: nat)
    requires commands != []
    requires var n := |commands| - 1;
      && After(AfterRun(s, commands[..n]), commands[n]).Some?
      && (!commands[n].Tick? ==> 1 <= commands[n].number <= |reasons|)
      && (forall k :: 0 <= k < |reasons| ==> reasons[k] == Latest(s, commands[..n], k))
      && i < |ReasonsAfter(commands[n], reasons)|
    ensures ReasonsAfter(commands[|commands| - 1], reasons)[i] == Latest(s, commands, i)
  {
    hide After, AfterRun, ReasonsAfter;
    ReasonAt(commands[|commands| - 1], reasons, i);
  }

  lemma CommandStands(s: State, c: Command)
    requires Agrees(s) && !c.Tick? && After(s, c).Some?
    ensures 1 <= c.number <= |s.boxes|
  {
    CommandStep(s, c);
    hide After, Agrees, Effect;
    IndexOfNumber(s, c.number);
  }

  lemma RunStep(s: State, commands: seq<Command>)
    requires commands != []
    ensures var n := |commands| - 1; var before := AfterRun(s, commands[..n]);
      AfterRun(s, commands) == (if After(before, commands[n]).Some? then After(before, commands[n]).value else before)
    ensures var n := |commands| - 1;
      After(AfterRun(s, commands[..n]), commands[n]).None? ==> forall i: nat :: Latest(s, commands, i) == Latest(s, commands[..n], i)
  {
    hide After;
  }

  /** Over every run of commands, refused ones included, each box carries exactly the latest tick's words for it, as long
      as no text starts like a reason. */
  lemma {:induction false} RunKeepsReasons(s: State, commands: seq<Command>)
    requires Agrees(s) && OpenUnexplained(s.boxes) && QuietRun(s, commands)
    ensures OpenUnexplained(AfterRun(s, commands).boxes)
    ensures forall i :: 0 <= i < |AfterRun(s, commands).boxes| ==> AfterRun(s, commands).boxes[i].reason == Latest(s, commands, i)
  {
    if commands != [] {
      var n := |commands| - 1;
      var before, c := AfterRun(s, commands[..n]), commands[n];
      assert commands[n] in commands && QuietRun(s, commands[..n]);
      RunKeepsReasons(s, commands[..n]);
      RunKeepsView(s, commands[..n]);
      RunStep(s, commands);
      hide Quiet, QuietCommand, After, AfterRun, Latest, Agrees, ReasonsAfter, OpenUnexplained;
      if After(before, c).Some? {
        CommandReasons(before, c);
        if !c.Tick? {
          CommandStands(before, c);
        }
        forall i | 0 <= i < |After(before, c).value.boxes|
          ensures After(before, c).value.boxes[i].reason == Latest(s, commands, i)
        {
          LatestStep(s, commands, ReasonsOf(before.boxes), i);
        }
      }
    }
  }

  /** When only open boxes are edited, each closed box carries the latest tick's words for it, and an open one none. */
  lemma ClosedSayWhy(s: State, commands: seq<Command>, i: nat)
    requires Agrees(s) && Explained(s.boxes) && EditsOpen(s, commands) && QuietRun(s, commands) && i < |AfterRun(s, commands).boxes|
    ensures var b := AfterRun(s, commands).boxes[i];
      && b.reason == Latest(s, commands, i)
      && if b.mark == Open then b.reason == None else b.reason.Some? && b.reason.value.mark == b.mark
  {
    assert OpenUnexplained(s.boxes);
    hide Agrees, EditsOpen, AfterRun, Latest, QuietRun;
    RunKeepsView(s, commands);
    RunKeepsReasons(s, commands);
  }
}
