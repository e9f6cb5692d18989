/**
 Nested walks: each procedure is opened as a checklist of its own, and a box whose step links another procedure
 may be ticked done only once some walk of that procedure is closed. Which walks can close, and which never do.
 */
module NestedWalks {
  import opened Outcomes
  import opened LinkGraph
  import opened Marks
  import opened Procedures

  datatype Box = Box(mark: Mark, link: Option<Id>)

  datatype Walk = Walk(procedure: Id, boxes: seq<Box>)

  /** The walks under one working tree, in the order they were opened. */
  type Tree = seq<Walk>

  /**
   Box numbers are 1-based; planned says that a plan beside the walk places every number asked for, isReason that
   because does not say the step was done elsewhere.
   */
  datatype Event =
    | OpenNested(id: Id, again: bool, purpose: string)
    | Tick(walk: nat, done: set<nat>, skip: set<nat>, planned: bool, note: string, because: string, isReason: bool)

  predicate AllMarked(w: Walk) {
    forall k :: 0 <= k < |w.boxes| ==> w.boxes[k].mark != Open
  }

  predicate IsClosed(w: Walk) {
    w.boxes != [] && AllMarked(w)
  }

  predicate Closed(t: Tree, id: Id) {
    exists w :: w in t && w.procedure == id && IsClosed(w)
  }

  predicate Exists(t: Tree, id: Id) {
    exists w :: w in t && w.procedure == id
  }

  function Fresh(lib: Library, id: Id): Walk
    requires id in lib
  {
    Walk(id, seq(|lib[id]|, k requires 0 <= k < |lib[id]| => Box(Open, lib[id][k].link)))
  }

  function MarkBox(b: Box, n: nat, done: set<nat>, skip: set<nat>): Box {
    if n in done then b.(mark := Done) else if n in skip then b.(mark := NotNeeded) else b
  }

  function Marked(w: Walk, done: set<nat>, skip: set<nat>): Walk {
    w.(boxes := seq(|w.boxes|, k requires 0 <= k < |w.boxes| => MarkBox(w.boxes[k], k + 1, done, skip)))
  }

  /** What ticking asks of the walk and of the tree before any box changes. */
  predicate TickAllowed(t: Tree, e: Event)
    requires e.Tick?
  {
    var walk, done, skip := e.walk, e.done, e.skip;
    && walk < |t|
    && (skip != {} ==> e.because != "" && e.isReason)
    && (done != {} ==> e.note != "")
    && done + skip != {} && done !! skip
    && (|skip| > 1 || |done| > TICK_AT_ONCE ==> e.planned)
    && (forall n :: n in done + skip ==> 1 <= n <= |t[walk].boxes|)
    && (forall n :: n in done ==> var link := t[walk].boxes[n - 1].link; link.Some? ==> Closed(t, link.value))
    && (forall n :: n in skip ==> var link := t[walk].boxes[n - 1].link; link.Some? ==> Exists(t, link.value))
  }

  ghost predicate LinkReady(t: Tree, link: Option<Id>, closed: bool) {
    link.Some? ==> if closed then Closed(t, link.value) else Exists(t, link.value)
  }

  predicate Unfinished(t: Tree, id: Id) {
    exists w :: w in t && w.procedure == id && !AllMarked(w)
  }

  /** The procedure is stored and its document valid. */
  predicate Openable(lib: Library, id: Id) {
    id in lib && ValidDocument(lib[id])
  }

  /** The tree after an event; a refused event changes nothing. */
  function After(lib: Library, t: Tree, e: Event): Tree {
    match e
    case OpenNested(id, again, purpose) =>
      if purpose == "" || (!again && Unfinished(t, id)) || !Openable(lib, id) then t else t + [Fresh(lib, id)]
    case Tick(walk, done, skip, _, _, _, _) =>
      if TickAllowed(t, e) then t[walk := Marked(t[walk], done, skip)] else t
  }

  function AfterRun(lib: Library, t: Tree, events: seq<Event>): Tree
    decreases events
  {
    if events == [] then t else AfterRun(lib, After(lib, t, events[0]), events[1..])
  }

  lemma {:induction false} RunSplits(lib: Library, t: Tree, a: seq<Event>, b: seq<Event>)
    ensures AfterRun(lib, t, a + b) == AfterRun(lib, AfterRun(lib, t, a), b)
    decreases a
  {
    if a == [] {
      assert a + b == b;
    } else {
      assert (a + b)[1..] == a[1..] + b;
      RunSplits(lib, After(lib, t, a[0]), a[1..], b);
    }
  }

  /** Every walk lists its procedure's steps, links included. */
  ghost predicate Matches(lib: Library, w: Walk) {
    Openable(lib, w.procedure) && |w.boxes| == |lib[w.procedure]|
    && forall k :: 0 <= k < |w.boxes| ==> w.boxes[k].link == lib[w.procedure][k].link
  }

  ghost predicate Faithful(lib: Library, t: Tree) {
    forall k :: 0 <= k < |t| ==> Matches(lib, t[k])
  }

  lemma AfterAt(lib: Library, t: Tree, e: Event, k: nat)
    requires k < |t|
    ensures |After(lib, t, e)| >= |t|
    ensures After(lib, t, e)[k] == t[k] || (e.Tick? && After(lib, t, e)[k] == Marked(t[k], e.done, e.skip))
  {
    hide Marked, Fresh, Unfinished, Closed, Exists;
  }

  /** An event leaves every walk where it is; boxes only get marked. */
  lemma WalkAfter(lib: Library, t: Tree, e: Event, k: nat)
    requires k < |t|
    ensures |After(lib, t, e)| >= |t|
    ensures var w, w' := t[k], After(lib, t, e)[k];
      && w'.procedure == w.procedure && |w'.boxes| == |w.boxes|
      && forall i :: 0 <= i < |w.boxes| ==> w'.boxes[i].link == w.boxes[i].link && (w'.boxes[i].mark == Open ==> w.boxes[i].mark == Open)
  {
    hide After;
    AfterAt(lib, t, e, k);
  }

  /** Whatever a call changes, it changes in one walk, at boxes it names, and only with what such a change asks for: a note
      and a closed walk of what a done step links, a reason and an opened one for a skipped step, a plan for many. */
  lemma TickAsks(lib: Library, t: Tree, e: Event, w: nat, k: nat)
    requires e.Tick? && w < |t| && k < |t[w].boxes| && After(lib, t, e)[w].boxes != t[w].boxes
    requires After(lib, t, e)[w].boxes[k] != t[w].boxes[k]
    ensures w == e.walk && (k + 1 in e.done || k + 1 in e.skip)
    ensures var was, now := t[w].boxes[k], After(lib, t, e)[w].boxes[k];
      && now.link == was.link
      && (k + 1 in e.done ==> now.mark == Done && e.note != "" && (was.link.Some? ==> Closed(t, was.link.value)))
      && (k + 1 in e.skip ==>
            now.mark == NotNeeded && e.because != "" && e.isReason && (was.link.Some? ==> Exists(t, was.link.value)))
    ensures |e.skip| > 1 || |e.done| > 6 ==> e.planned
  {
    hide Closed, Exists;
    assert TickAllowed(t, e);
  }

  lemma OpenedAfter(lib: Library, t: Tree, e: Event, k: nat)
    requires |t| <= k < |After(lib, t, e)|
    ensures Matches(lib, After(lib, t, e)[k])
  {
  }

  lemma AfterFaithful(lib: Library, t: Tree, e: Event)
    requires Faithful(lib, t)
    ensures Faithful(lib, After(lib, t, e))
  {
    hide After;
    var after := After(lib, t, e);
    forall k | 0 <= k < |after|
      ensures Matches(lib, after[k])
    {
      if k < |t| {
        WalkAfter(lib, t, e, k);
        assert Matches(lib, t[k]);
      } else {
        OpenedAfter(lib, t, e, k);
      }
    }
  }

  lemma {:induction false} RunFaithful(lib: Library, t: Tree, events: seq<Event>)
    requires Faithful(lib, t)
    ensures Faithful(lib, AfterRun(lib, t, events))
    decreases events
  {
    if events != [] {
      AfterFaithful(lib, t, events[0]);
      RunFaithful(lib, After(lib, t, events[0]), events[1..]);
    }
  }

  predicate DoneOnly(events: seq<Event>) {
    forall k :: 0 <= k < |events| ==> events[k].Tick? ==> events[k].skip == {}
  }

  ghost predicate OnCycle(lib: Library, id: Id) {
    Leads(Links(lib), id, id)
  }

  /** A walk needs somewhere to put its ticks. */
  ghost predicate Walkable(lib: Library, id: Id) {
    Openable(lib, id) && lib[id] != [] && !OnCycle(lib, id)
  }

  /** The procedure and everything it runs, directly or not, can be opened, has steps and lies on no link cycle. */
  ghost predicate Closable(lib: Library, id: Id) {
    Walkable(lib, id) && forall q :: Leads(Links(lib), id, q) ==> Walkable(lib, q)
  }

  lemma ClosableStep(lib: Library, p: Id, q: Id)
    requires Closable(lib, p) && Edge(Links(lib), p, q)
    ensures Closable(lib, q)
  {
    EdgeLeads(Links(lib), p, q);
    forall r | Leads(Links(lib), q, r) ensures Walkable(lib, r) {
      LeadsTrans(Links(lib), p, q, r);
    }
  }

  /** A marked box's link has a closed walk, and nothing that is not closable is closed. */
  ghost predicate Stuck(lib: Library, t: Tree) {
    && Faithful(lib, t)
    && (forall w, k :: 0 <= w < |t| && 0 <= k < |t[w].boxes| && t[w].boxes[k].mark != Open && t[w].boxes[k].link.Some?
          ==> Closed(t, t[w].boxes[k].link.value))
    && (forall w :: 0 <= w < |t| && !Closable(lib, t[w].procedure) ==> !IsClosed(t[w]))
  }

  /** Marking only closes more. */
  lemma ClosedStays(lib: Library, t: Tree, e: Event, id: Id)
    requires Closed(t, id)
    ensures Closed(After(lib, t, e), id)
  {
    var w :| w in t && w.procedure == id && IsClosed(w);
    var k :| 0 <= k < |t| && t[k] == w;
    WalkAfter(lib, t, e, k);
    hide After;
    var after := After(lib, t, e);
    assert after[k] in after && IsClosed(after[k]);
  }

  /** A procedure with steps that is not closable has a step that links another one that is not. */
  lemma BlockedGoesOn(lib: Library, p: Id) returns (k: nat)
    requires Openable(lib, p) && lib[p] != [] && !Closable(lib, p)
    ensures k < |lib[p]| && lib[p][k].link.Some? && !Closable(lib, lib[p][k].link.value)
  {
    var r := p;
    if !OnCycle(lib, p) {
      r :| Leads(Links(lib), p, r) && !Walkable(lib, r);
    }
    var q := LeadsFirst(Links(lib), p, r);
    if OnCycle(lib, p) && q != p {
      EdgeLeads(Links(lib), p, q);
      LeadsTrans(Links(lib), q, p, q);
    }
    var s :| s in lib[p] && s.link == Some(q);
    k :| 0 <= k < |lib[p]| && lib[p][k] == s;
  }

  /** Without skips, a box that an event marks links a closed walk, if it links any. */
  lemma MarkedWhenClosed(lib: Library, t: Tree, e: Event, w: nat, k: nat)
    requires e.Tick? ==> e.skip == {}
    requires w < |After(lib, t, e)| && k < |After(lib, t, e)[w].boxes|
    requires var b := After(lib, t, e)[w].boxes[k]; b.mark != Open && b.link.Some?
    ensures w < |t| && k < |t[w].boxes| && t[w].boxes[k].link == After(lib, t, e)[w].boxes[k].link
    ensures t[w].boxes[k].mark != Open || Closed(t, t[w].boxes[k].link.value)
  {
    hide Closed, Unfinished, Exists;
  }

  lemma StuckStays(lib: Library, t: Tree, e: Event)
    requires Stuck(lib, t) && (e.Tick? ==> e.skip == {})
    ensures Stuck(lib, After(lib, t, e))
  {
    hide After, Closed, Closable, Matches, IsClosed;
    var after := After(lib, t, e);
    AfterFaithful(lib, t, e);
    forall w, k | 0 <= w < |after| && 0 <= k < |after[w].boxes| && after[w].boxes[k].mark != Open && after[w].boxes[k].link.Some?
      ensures Closed(t, after[w].boxes[k].link.value) && Closed(after, after[w].boxes[k].link.value)
    {
      MarkedWhenClosed(lib, t, e, w, k);
      ClosedStays(lib, t, e, after[w].boxes[k].link.value);
    }
    forall w | 0 <= w < |after| && !Closable(lib, after[w].procedure)
      ensures !IsClosed(after[w])
    {
      StillOpen(lib, t, e, w);
    }
  }

  lemma StillOpen(lib: Library, t: Tree, e: Event, w: nat)
    requires Stuck(lib, t) && (e.Tick? ==> e.skip == {})
    requires w < |After(lib, t, e)| && !Closable(lib, After(lib, t, e)[w].procedure)
    ensures !IsClosed(After(lib, t, e)[w])
  {
    var after := After(lib, t, e);
    AfterFaithful(lib, t, e);
    assert Matches(lib, after[w]);
    hide After, Closable;
    if after[w].boxes != [] {
      var k := BlockedGoesOn(lib, after[w].procedure);
      if after[w].boxes[k].mark != Open {
        MarkedWhenClosed(lib, t, e, w, k);
        NotClosedYet(lib, t, after[w].boxes[k].link.value);
      }
    }
  }

  lemma NotClosedYet(lib: Library, t: Tree, q: Id)
    requires Stuck(lib, t) && !Closable(lib, q)
    ensures !Closed(t, q)
  {
    hide Closable, IsClosed;
  }

  /** In runs of only nested opens and done ticks, a procedure that is not closable never has a closed walk. */
  lemma {:induction false} BlockedNeverClose(lib: Library, t: Tree, events: seq<Event>)
    requires Stuck(lib, t) && DoneOnly(events)
    ensures Stuck(lib, AfterRun(lib, t, events))
    ensures forall id :: !Closable(lib, id) ==> !Closed(AfterRun(lib, t, events), id)
    decreases events
  {
    if events != [] {
      StuckStays(lib, t, events[0]);
      assert DoneOnly(events[1..]) by {
        forall k | 0 <= k < |events[1..]| && events[1..][k].Tick? ensures events[1..][k].skip == {} {
          assert events[1..][k] == events[k + 1];
        }
      }
      BlockedNeverClose(lib, After(lib, t, events[0]), events[1..]);
    }
  }

  lemma EmptyTreeStuck(lib: Library)
    ensures Stuck(lib, [])
  {
  }

  /** Ticking box i of walk w done, on its own. */
  function TickOne(w: nat, i: nat): Event {
    Tick(w, {i + 1}, {}, false, "done", "", true)
  }

  /** One box whose link, if any, has a closed walk can be ticked; nothing else changes. */
  lemma TicksOne(lib: Library, t: Tree, w: nat, i: nat)
    requires w < |t| && i < |t[w].boxes| && (t[w].boxes[i].link.Some? ==> Closed(t, t[w].boxes[i].link.value))
    ensures var after := After(lib, t, TickOne(w, i));
      && |after| == |t| && (forall k :: 0 <= k < |t| && k != w ==> after[k] == t[k])
      && after[w].procedure == t[w].procedure && |after[w].boxes| == |t[w].boxes|
      && after[w].boxes[i].mark == Done
      && forall k :: 0 <= k < |t[w].boxes| && k != i ==> after[w].boxes[k] == t[w].boxes[k]
  {
    assert {i + 1} + {} == {i + 1};
  }

  lemma NotBackOnChain(lib: Library, chain: seq<Id>, q: Id)
    requires IsPath(Links(lib), chain + [q]) && !OnCycle(lib, q)
    ensures q !in chain
  {
    forall k | 0 <= k < |chain| ensures chain[k] != q {
      PathSuffix(Links(lib), chain + [q], k);
      var back := (chain + [q])[k..];
      assert back[0] == chain[k] && back[|back| - 1] == q;
      assert chain[k] == q ==> Chain(Links(lib), q, q, back);
    }
  }

  /** From a tree where w's first boxes are marked, a schedule of opens and done ticks that closes walk w. */
  lemma {:induction false} CloseFrom(lib: Library, t: Tree, w: nat, i: nat, chain: seq<Id>) returns (events: seq<Event>)
    requires Faithful(lib, t) && w < |t| && Closable(lib, t[w].procedure)
    requires i <= |t[w].boxes| && (forall k :: 0 <= k < i ==> t[w].boxes[k].mark != Open)
    requires IsPath(Links(lib), chain) && Distinct(chain) && chain[|chain| - 1] == t[w].procedure
    ensures DoneOnly(events)
    ensures var after := AfterRun(lib, t, events);
      && |after| >= |t| && after[w].procedure == t[w].procedure && IsClosed(after[w])
      && forall k :: 0 <= k < |t| && k != w ==> after[k] == t[k]
    decreases Nodes(Links(lib)) - set x | x in chain, |t[w].boxes| - i, 1
  {
    assert Matches(lib, t[w]);
    assert t[w].boxes != [];
    hide Closable, IsPath, Distinct, Links, Matches, After, Closed, TickOne;
    if i == |t[w].boxes| {
      events := [];
    } else {
      var link := t[w].boxes[i].link;
      var before := [];
      if link.Some? {
        before := CloseLinked(lib, t, w, i, chain);
      }
      var ready := AfterRun(lib, t, before);
      RunFaithful(lib, t, before);
      TicksOne(lib, ready, w, i);
      var ticked := After(lib, ready, TickOne(w, i));
      AfterFaithful(lib, ready, TickOne(w, i));
      assert DoneOnly([TickOne(w, i)]) by { OneDone(w, i); }
      var rest := CloseFrom(lib, ticked, w, i + 1, chain);
      events := before + ([TickOne(w, i)] + rest);
      RunSplits(lib, t, before, [TickOne(w, i)] + rest);
      assert AfterRun(lib, ready, [TickOne(w, i)] + rest) == AfterRun(lib, ticked, rest);
    }
  }

  lemma OneDone(w: nat, i: nat)
    ensures DoneOnly([TickOne(w, i)])
  {
  }

  /** A schedule after which the procedure that box i of w links has a closed walk, and t's walks are as they were. */
  lemma {:induction false} CloseLinked(lib: Library, t: Tree, w: nat, i: nat, chain: seq<Id>) returns (events: seq<Event>)
    requires Faithful(lib, t) && w < |t| && Closable(lib, t[w].procedure)
    requires i < |t[w].boxes| && t[w].boxes[i].link.Some?
    requires IsPath(Links(lib), chain) && Distinct(chain) && chain[|chain| - 1] == t[w].procedure
    ensures DoneOnly(events)
    ensures var after := AfterRun(lib, t, events);
      Closed(after, t[w].boxes[i].link.value) && t <= after
    decreases Nodes(Links(lib)) - set x | x in chain, |t[w].boxes| - i, 0
  {
    var p, q := t[w].procedure, t[w].boxes[i].link.value;
    assert Matches(lib, t[w]);
    LinkEdge(lib, p, q);
    PathExtend(Links(lib), chain, q);
    ClosableStep(lib, p, q);
    NotBackOnChain(lib, chain, q);
    assert forall x :: x in chain + [q] <==> x in chain || x == q;
    assert q in Nodes(Links(lib)) - set x | x in chain;
    var open := OpenNested(q, true, "this step");
    var wider := After(lib, t, open);
    AfterFaithful(lib, t, open);
    var rest := CloseFrom(lib, wider, |t|, 0, chain + [q]);
    events := [open] + rest;
    var after := AfterRun(lib, t, events);
    assert after[|t|] in after;
  }

  /**
   A walk that done ticks have brought this far can be closed, by a finite schedule of nested opens and done
   ticks, exactly when its procedure is closable.
   */
  lemma ClosesIffClosable(lib: Library, t: Tree, w: nat)
    requires Stuck(lib, t) && w < |t|
    ensures Closable(lib, t[w].procedure) <==> exists events :: CanClose(lib, t, w, events)
  {
    if Closable(lib, t[w].procedure) {
      var events := CloseFrom(lib, t, w, 0, [t[w].procedure]);
      assert CanClose(lib, t, w, events);
    }
    if events :| CanClose(lib, t, w, events) {
      BlockedNeverClose(lib, t, events);
      assert AfterRun(lib, t, events)[w] in AfterRun(lib, t, events);
    }
  }

  ghost predicate CanClose(lib: Library, t: Tree, w: nat, events: seq<Event>)
    requires w < |t|
  {
    var after := AfterRun(lib, t, events);
    DoneOnly(events) && w < |after| && after[w].procedure == t[w].procedure && IsClosed(after[w])
  }

  /** In a library without circles or dangling links, whose documents are all valid and have steps, every procedure is closable. */
  lemma SoundIsClosable(lib: Library, id: Id)
    requires Sound(lib) && (forall p :: p in lib ==> lib[p] != [] && ValidDocument(lib[p])) && id in lib
    ensures Closable(lib, id)
  {
    forall q | Leads(Links(lib), id, q) ensures Walkable(lib, q) {
      var c := LeadsLast(Links(lib), id, q);
    }
  }

  /** Skipping asks only that the linked procedure was opened, so it closes walks on cycles too. */
  lemma {:induction false} SkippingCloses(lib: Library, t: Tree, w: nat, i: nat) returns (events: seq<Event>)
    requires NoDangling(lib) && (forall p :: p in lib ==> ValidDocument(lib[p])) && Faithful(lib, t)
    requires w < |t| && i <= |t[w].boxes| && t[w].boxes != [] && forall k :: 0 <= k < i ==> t[w].boxes[k].mark != Open
    ensures |AfterRun(lib, t, events)| > w && AfterRun(lib, t, events)[w].procedure == t[w].procedure
    ensures IsClosed(AfterRun(lib, t, events)[w])
    decreases |t[w].boxes| - i
  {
    hide After, Closed, NoDangling;
    if i == |t[w].boxes| {
      events := [];
    } else {
      var looked := OpensLinked(lib, t, w, i);
      var ready, skip := AfterRun(lib, t, looked), SkipOne(w, i);
      SkipsOne(lib, ready, w, i);
      AfterFaithful(lib, ready, skip);
      var rest := SkippingCloses(lib, After(lib, ready, skip), w, i + 1);
      events := looked + ([skip] + rest);
      RunSplits(lib, t, looked, [skip] + rest);
      assert ([skip] + rest)[1..] == rest;
    }
  }

  /** Opening what box i links, if it links anything. */
  lemma OpensLinked(lib: Library, t: Tree, w: nat, i: nat) returns (events: seq<Event>)
    requires NoDangling(lib) && (forall p :: p in lib ==> ValidDocument(lib[p])) && Faithful(lib, t) && w < |t| && i < |t[w].boxes|
    ensures var ready := AfterRun(lib, t, events);
      && t <= ready && Faithful(lib, ready)
      && (t[w].boxes[i].link.Some? ==> Exists(ready, t[w].boxes[i].link.value))
  {
    var link := t[w].boxes[i].link;
    if link.None? {
      events := [];
    } else {
      assert Matches(lib, t[w]);
      LinkEdge(lib, t[w].procedure, link.value);
      var open := OpenNested(link.value, true, "this step");
      events := [open];
      assert AfterRun(lib, t, events) == After(lib, t, open) == t + [Fresh(lib, link.value)];
      assert (t + [Fresh(lib, link.value)])[|t|].procedure == link.value;
      AfterFaithful(lib, t, open);
    }
  }

  /** Skipping box i of walk w, on its own. */
  function SkipOne(w: nat, i: nat): Event {
    Tick(w, {}, {i + 1}, false, "", "does not apply", true)
  }

  /** One box whose link, if any, has an opened walk can be skipped; nothing else changes. */
  lemma SkipsOne(lib: Library, t: Tree, w: nat, i: nat)
    requires w < |t| && i < |t[w].boxes| && (t[w].boxes[i].link.Some? ==> Exists(t, t[w].boxes[i].link.value))
    ensures var after := After(lib, t, SkipOne(w, i));
      && |after| == |t| && after[w].procedure == t[w].procedure && |after[w].boxes| == |t[w].boxes|
      && after[w].boxes[i].mark == NotNeeded
      && forall k :: 0 <= k < |t[w].boxes| && k != i ==> after[w].boxes[k] == t[w].boxes[k]
  {
    assert {} + {i + 1} == {i + 1};
  }

  /** The working tree the two commands act on. */
  class WorkingTree {
    var walks: Tree

    constructor ()
      ensures walks == []
    {
      walks := [];
    }

    /** None: refused, or an unfinished walk was handed back. */
    method OpenWalk(lib: Library, id: Id, again: bool, purpose: string) returns (added: Option<nat>)
      modifies this
      ensures walks == After(lib, old(walks), OpenNested(id, again, purpose))
      ensures added.Some? ==> added.value == |old(walks)| && |walks| == |old(walks)| + 1
      ensures added.None? ==> walks == old(walks)
    {
      hide ValidDocument;
      if purpose == "" {
        return None;
      }
      if !again {
        var unfinished := HasUnfinished(id);
        if unfinished {
          return None;
        }
      }
      if id !in lib || !ValidDocument(lib[id]) {
        return None;
      }
      var steps := lib[id];
      var boxes: seq<Box> := [];
      for k := 0 to |steps|
        invariant boxes == Fresh(lib, id).boxes[..k]
        invariant walks == old(walks)
      {
        boxes := boxes + [Box(Open, steps[k].link)];
      }
      assert boxes == Fresh(lib, id).boxes;
      walks := walks + [Walk(id, boxes)];
      return Some(|walks| - 1);
    }

    method TickWalk(lib: Library, call: Event) returns (ok: bool)
      requires call.Tick?
      modifies this
      ensures ok <==> TickAllowed(old(walks), call)
      ensures walks == After(lib, old(walks), call)
    {
      ok := Permits(call);
      if ok {
        var boxes := MarkBoxes(walks[call.walk], call.done, call.skip);
        walks := walks[call.walk := walks[call.walk].(boxes := boxes)];
      }
    }

    /** What the call asks for, checked one thing after the other. */
    method Permits(call: Event) returns (ok: bool)
      requires call.Tick?
      ensures ok <==> TickAllowed(walks, call)
    {
      hide Closed, Exists;
      if call.walk >= |walks| || (call.done == {} && call.skip == {}) || call.done * call.skip != {} {
        return false;
      }
      if (call.skip != {} && (call.because == "" || !call.isReason)) || (call.done != {} && call.note == "") {
        return false;
      }
      if (|call.skip| > 1 || |call.done| > TICK_AT_ONCE) && !call.planned {
        return false;
      }
      ok := NumbersFit(call.walk, call.done + call.skip);
      if !ok {
        return;
      }
      ok := LinksOpened(call.walk, call.done, true);
      if !ok {
        return;
      }
      ok := LinksOpened(call.walk, call.skip, false);
    }

    method NumbersFit(walk: nat, asked: set<nat>) returns (ok: bool)
      requires walk < |walks|
      ensures ok <==> forall n :: n in asked ==> 1 <= n <= |walks[walk].boxes|
    {
      var left := asked;
      while left != {}
        invariant left <= asked && forall n :: n in asked ==> n in left || 1 <= n <= |walks[walk].boxes|
      {
        var n :| n in left;
        if n == 0 || n > |walks[walk].boxes| {
          return false;
        }
        left := left - {n};
      }
      return true;
    }

    /** Every asked box's link has a walk, a closed one where that is asked for. */
    method LinksOpened(walk: nat, asked: set<nat>, closed: bool) returns (ok: bool)
      requires walk < |walks| && forall n :: n in asked ==> 1 <= n <= |walks[walk].boxes|
      ensures ok <==> forall n :: n in asked ==> LinkReady(walks, walks[walk].boxes[n - 1].link, closed)
    {
      hide Closed, Exists;
      var left := asked;
      while left != {}
        invariant left <= asked && forall n :: n in asked ==> n in left || LinkReady(walks, walks[walk].boxes[n - 1].link, closed)
      {
        var n :| n in left;
        var link := walks[walk].boxes[n - 1].link;
        if link.Some? {
          var found := FindWalk(link.value, closed);
          if !found {
            return false;
          }
        }
        left := left - {n};
      }
      return true;
    }

    method FindWalk(id: Id, closed: bool) returns (found: bool)
      ensures found <==> if closed then Closed(walks, id) else Exists(walks, id)
    {
      for k := 0 to |walks|
        invariant forall m :: 0 <= m < k ==> walks[m].procedure != id || (closed && !IsClosed(walks[m]))
      {
        if walks[k].procedure == id {
          var open := FirstOpen(walks[k].boxes);
          if !closed || (walks[k].boxes != [] && open == |walks[k].boxes|) {
            assert walks[k] in walks && (closed ==> IsClosed(walks[k]));
            return true;
          }
        }
      }
      return false;
    }

    method HasUnfinished(id: Id) returns (found: bool)
      ensures found <==> Unfinished(walks, id)
    {
      for k := 0 to |walks|
        invariant forall m :: 0 <= m < k ==> walks[m].procedure != id || AllMarked(walks[m])
      {
        var open := FirstOpen(walks[k].boxes);
        if walks[k].procedure == id && open < |walks[k].boxes| {
          assert walks[k] in walks;
          return true;
        }
      }
      return false;
    }
  }

  /** The first box that is still open. */
  method FirstOpen(boxes: seq<Box>) returns (i: nat)
    ensures i <= |boxes| && (i < |boxes| ==> boxes[i].mark == Open)
    ensures forall k :: 0 <= k < i ==> boxes[k].mark != Open
  {
    i := 0;
    while i < |boxes| && boxes[i].mark != Open
      invariant i <= |boxes| && forall k :: 0 <= k < i ==> boxes[k].mark != Open
    {
      i := i + 1;
    }
  }

  method MarkBoxes(w: Walk, done: set<nat>, skip: set<nat>) returns (boxes: seq<Box>)
    ensures boxes == Marked(w, done, skip).boxes
  {
    boxes := w.boxes;
    for k := 0 to |boxes|
      invariant |boxes| == |w.boxes|
      invariant forall m :: 0 <= m < |boxes| ==>
        boxes[m] == if m < k then MarkBox(w.boxes[m], m + 1, done, skip) else w.boxes[m]
    {
      if k + 1 in done {
        boxes := boxes[k := boxes[k].(mark := Done)];
      } else if k + 1 in skip {
        boxes := boxes[k := boxes[k].(mark := NotNeeded)];
      }
    }
  }
}
