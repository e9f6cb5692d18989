/**
 A procedure as one straight list of steps: each linked procedure follows, in place, the first step that links
 it, once. `Flat` is the list and the visited set the recursion leaves; `Expansion.Expand` is the recursion
 itself, with one visited set that every call shares.
 */
module Flattening {
  import opened Outcomes
  import opened LinkGraph
  import opened Procedures
  import opened Sequences

  const FRAMEWORK: set<Id> :=
    {Id("mizpah-resolve-unknown"), Id("mizpah-build-environment"), Id("cartograph-widget"), Id("author-procedure")}

  /** step is 1-based; depth counts the links followed from the root. */
  datatype Entry = Entry(source: Id, step: nat, title: string, text: string, depth: nat, linked: Option<Id>,
                         circular: bool, inlinedAbove: bool, framework: bool)

  datatype Flattened = Flattened(out: seq<Entry>, seen: set<Id>)

  /** A link the flattener can follow at all. */
  predicate Followable(lib: Library, link: Option<Id>) {
    link.Some? && link.value !in FRAMEWORK && link.value in lib
  }

  function EntryAt(lib: Library, p: Id, chain: seq<Id>, i: nat, seen: set<Id>): Entry
    requires p in lib && i < |lib[p]| && chain != []
  {
    var s := lib[p][i];
    Entry(p, i + 1, s.title, s.text, |chain| - 1, s.link,
          s.link.Some? && s.link.value in chain,
          s.link.Some? && s.link.value in seen && s.link.value !in chain,
          s.link.Some? && s.link.value in FRAMEWORK)
  }

  /** The steps of p from index i on, with what they inline; chain runs from the root to p. */
  ghost function Flat(lib: Library, p: Id, chain: seq<Id>, i: nat, seen: set<Id>): (r: Flattened)
    requires p in lib && i <= |lib[p]| && chain != []
    ensures seen <= r.seen
    decreases lib.Keys - seen, |lib[p]| - i, 1
  {
    if i == |lib[p]| then Flattened([], seen) else
    var inner := Inlined(lib, p, chain, i, seen);
    var rest := Flat(lib, p, chain, i + 1, inner.seen);
    Flattened([EntryAt(lib, p, chain, i, seen)] + inner.out + rest.out, rest.seen)
  }

  /** What step i of p brings in below it. */
  ghost function Inlined(lib: Library, p: Id, chain: seq<Id>, i: nat, seen: set<Id>): (r: Flattened)
    requires p in lib && i < |lib[p]| && chain != []
    ensures seen <= r.seen
    decreases lib.Keys - seen, |lib[p]| - i, 0
  {
    var link := lib[p][i].link;
    if Followable(lib, link) && link.value !in seen
    then Flat(lib, link.value, chain + [link.value], 0, seen + {link.value})
    else Flattened([], seen)
  }

  lemma FlatStep(lib: Library, p: Id, chain: seq<Id>, i: nat, seen: set<Id>)
    requires p in lib && i <= |lib[p]| && chain != []
    ensures i == |lib[p]| ==> Flat(lib, p, chain, i, seen) == Flattened([], seen)
    ensures i < |lib[p]| ==>
      var inner := Inlined(lib, p, chain, i, seen);
      var rest := Flat(lib, p, chain, i + 1, inner.seen);
      Flat(lib, p, chain, i, seen) == Flattened([EntryAt(lib, p, chain, i, seen)] + inner.out + rest.out, rest.seen)
  {
  }

  lemma InlinedIs(lib: Library, p: Id, chain: seq<Id>, i: nat, seen: set<Id>)
    requires p in lib && i < |lib[p]| && chain != []
    ensures var link := lib[p][i].link;
      Inlined(lib, p, chain, i, seen) ==
        if Followable(lib, link) && link.value !in seen then Flat(lib, link.value, chain + [link.value], 0, seen + {link.value})
        else Flattened([], seen)
  {
  }

  lemma EntryIs(lib: Library, p: Id, chain: seq<Id>, i: nat, seen: set<Id>)
    requires p in lib && i < |lib[p]| && chain != []
    ensures var e, s := EntryAt(lib, p, chain, i, seen), lib[p][i];
      && e.source == p && e.step == i + 1 && e.depth == |chain| - 1
      && e.title == s.title && e.text == s.text && e.linked == s.link
  {
  }

  /** The whole method of a stored procedure. */
  ghost function Method(lib: Library, root: Id): seq<Entry>
    requires root in lib
  {
    Flat(lib, root, [root], 0, {root}).out
  }

  class Expansion {
    var seen: set<Id>

    constructor (root: Id)
      ensures seen == {root}
    {
      seen := {root};
    }

    /** chain is the ancestors and p itself. */
    method Expand(lib: Library, p: Id, chain: seq<Id>) returns (out: seq<Entry>)
      requires p in lib && chain != []
      modifies this
      ensures Flattened(out, seen) == Flat(lib, p, chain, 0, old(seen))
      decreases lib.Keys - seen
    {
      hide Flat, Inlined, EntryAt;
      out := [];
      var steps := lib[p];
      ghost var whole := Flat(lib, p, chain, 0, seen);
      for i := 0 to |steps|
        invariant old(seen) <= seen
        invariant whole.out == out + Flat(lib, p, chain, i, seen).out && whole.seen == Flat(lib, p, chain, i, seen).seen
      {
        ghost var inner := Inlined(lib, p, chain, i, seen);
        ghost var rest := Flat(lib, p, chain, i + 1, inner.seen);
        FlatStep(lib, p, chain, i, seen);
        InlinedIs(lib, p, chain, i, seen);
        var entry := EntryAt(lib, p, chain, i, seen);
        var linked := steps[i].link;
        var below := [];
        if Followable(lib, linked) && linked.value !in seen {
          seen := seen + {linked.value};
          below := Expand(lib, linked.value, chain + [linked.value]);
        }
        assert below == inner.out && seen == inner.seen;
        Regroup4(out, [entry], below, rest.out);
        out := out + [entry] + below;
      }
      FlatStep(lib, p, chain, |steps|, seen);
      assert out + [] == out;
    }
  }

  /** Opening a procedure flat: an error when it is not in the store. */
  method ExpandRoot(lib: Library, root: Id) returns (r: Option<seq<Entry>>)
    ensures r.Some? <==> root in lib
    ensures r.Some? ==> r.value == Method(lib, root)
  {
    if root !in lib {
      return None;
    }
    var expansion := new Expansion(root);
    var out := expansion.Expand(lib, root, [root]);
    return Some(out);
  }
}
