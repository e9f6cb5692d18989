/** What a flattened method is made of: which procedures, which of their steps, in which order and at what depth. */
module MethodShape {
  import opened Outcomes
  import opened LinkGraph
  import opened Procedures
  import opened Flattening

  /** The links the flattener follows. */
  ghost function Runs(lib: Library): Graph {
    map id | id in lib :: set s | s in lib[id] && Followable(lib, s.link) :: s.link.value
  }

  datatype Key = Key(source: Id, step: nat, title: string)

  function KeyOf(e: Entry): Key {
    Key(e.source, e.step, e.title)
  }

  function Keys(out: seq<Entry>): (ks: seq<Key>)
    ensures |ks| == |out| && forall i :: 0 <= i < |out| ==> ks[i] == KeyOf(out[i])
  {
    seq(|out|, i requires 0 <= i < |out| => KeyOf(out[i]))
  }

  /** The entries that come from q. */
  function Part(out: seq<Entry>, q: Id): seq<Entry> {
    if out == [] then [] else (if out[0].source == q then [out[0]] else []) + Part(out[1..], q)
  }

  /** q's own steps from index i on, as the document has them. */
  function Own(lib: Library, q: Id, i: nat): (ks: seq<Key>)
    requires q in lib && i <= |lib[q]|
  {
    seq(|lib[q]| - i, j requires 0 <= j < |lib[q]| - i => Key(q, i + j + 1, lib[q][i + j].title))
  }

  lemma {:induction false} PartOfConcat(a: seq<Entry>, b: seq<Entry>, q: Id)
    ensures Part(a + b, q) == Part(a, q) + Part(b, q)
  {
    if a == [] {
      assert a + b == b;
    } else {
      assert (a + b)[1..] == a[1..] + b;
      PartOfConcat(a[1..], b, q);
    }
  }

  lemma PartOfJoin(e: Entry, inner: seq<Entry>, rest: seq<Entry>, q: Id)
    ensures Part([e] + inner + rest, q) == (if e.source == q then [e] else []) + Part(inner, q) + Part(rest, q)
    ensures Keys(Part([e] + inner + rest, q)) ==
      (if e.source == q then [KeyOf(e)] else []) + Keys(Part(inner, q)) + Keys(Part(rest, q))
  {
    PartOfConcat([e] + inner, rest, q);
    PartOfConcat([e], inner, q);
    var first := if e.source == q then [e] else [];
    PartOfOne(e, q);
    hide Part;
    KeysOfJoin(first, Part(inner, q), Part(rest, q));
  }

  lemma PartOfOne(e: Entry, q: Id)
    ensures Part([e], q) == if e.source == q then [e] else []
    ensures Keys(Part([e], q)) == if e.source == q then [KeyOf(e)] else []
  {
    assert [e][1..] == [];
  }

  lemma KeysOfJoin(a: seq<Entry>, b: seq<Entry>, c: seq<Entry>)
    ensures Keys(a + b + c) == Keys(a) + Keys(b) + Keys(c)
  {
  }

  lemma {:induction false} PartEmpty(out: seq<Entry>, q: Id)
    requires forall e :: e in out ==> e.source != q
    ensures Part(out, q) == []
  {
    if out != [] {
      assert out[0] in out;
      PartEmpty(out[1..], q);
    }
  }

  /** Two entries of one procedure keep their order in its part. */
  lemma {:induction false} PartPair(out: seq<Entry>, a: nat, b: nat) returns (i: nat, j: nat)
    requires a < b < |out| && out[a].source == out[b].source
    ensures i < j < |Part(out, out[a].source)|
    ensures Part(out, out[a].source)[i] == out[a] && Part(out, out[a].source)[j] == out[b]
  {
    var q := out[a].source;
    PartOfConcat(out[..a], out[a..], q);
    PartOfConcat(out[a..b], out[b..], q);
    assert out == out[..a] + out[a..] && out[a..] == out[a..b] + out[b..];
    i, j := |Part(out[..a], q)|, |Part(out[..a], q)| + |Part(out[a..b], q)|;
    assert out[a..b][0] == out[a] && out[b..][0] == out[b];
  }

  /** Sources are the procedure itself and the ones newly visited; those are reached by followed links. */
  lemma {:induction false} Visits(lib: Library, p: Id, chain: seq<Id>, i: nat, seen: set<Id>)
    requires p in lib && i <= |lib[p]| && chain != []
    ensures var r := Flat(lib, p, chain, i, seen);
      && (forall e :: e in r.out ==> e.source == p || e.source in r.seen - seen)
      && (forall n :: n in r.seen - seen ==> n in lib && Leads(Runs(lib), p, n))
      && (forall n, b :: n in r.seen - seen && Edge(Runs(lib), n, b) ==> b in r.seen)
      && (forall k :: i <= k < |lib[p]| && Followable(lib, lib[p][k].link) ==> lib[p][k].link.value in r.seen)
    decreases lib.Keys - seen, |lib[p]| - i
  {
    hide Flat, Inlined, EntryAt, Leads, Runs;
    FlatStep(lib, p, chain, i, seen);
    if i < |lib[p]| {
      var link := lib[p][i].link;
      var inner := Inlined(lib, p, chain, i, seen);
      InlinedIs(lib, p, chain, i, seen);
      EntryIs(lib, p, chain, i, seen);
      if Followable(lib, link) && link.value !in seen {
        var q := link.value;
        Visits(lib, q, chain + [q], 0, seen + {q});
        RunsEdge(lib, p, i);
        EdgeLeads(Runs(lib), p, q);
        forall n | n in inner.seen - seen - {q} ensures Leads(Runs(lib), p, n) {
          LeadsTrans(Runs(lib), p, q, n);
        }
        forall b | Edge(Runs(lib), q, b) ensures b in inner.seen {
          var k := EdgeStep(lib, q, b);
        }
      }
      Visits(lib, p, chain, i + 1, inner.seen);
    }
  }

  lemma RunsEdge(lib: Library, p: Id, k: nat)
    requires p in lib && k < |lib[p]| && Followable(lib, lib[p][k].link)
    ensures Edge(Runs(lib), p, lib[p][k].link.value)
  {
  }

  lemma EdgeStep(lib: Library, p: Id, b: Id) returns (k: nat)
    requires Edge(Runs(lib), p, b)
    ensures p in lib && k < |lib[p]| && lib[p][k].link == Some(b) && Followable(lib, Some(b))
  {
    var s :| s in lib[p] && s.link == Some(b) && Followable(lib, s.link);
    k :| 0 <= k < |lib[p]| && lib[p][k] == s;
  }

  lemma InlinedVisits(lib: Library, p: Id, chain: seq<Id>, i: nat, seen: set<Id>)
    requires p in lib && i < |lib[p]| && chain != []
    ensures var r := Inlined(lib, p, chain, i, seen);
      (forall e :: e in r.out ==> e.source in r.seen - seen) && (forall n :: n in r.seen - seen ==> n in lib)
  {
    var link := lib[p][i].link;
    if Followable(lib, link) && link.value !in seen {
      Visits(lib, link.value, chain + [link.value], 0, seen + {link.value});
    }
  }

  /** The visited procedures are exactly the ones followed links reach from the root. */
  lemma VisitedIsReachable(lib: Library, root: Id)
    requires root in lib
    ensures forall n ::
      n in Flat(lib, root, [root], 0, {root}).seen <==> n == root || Leads(Runs(lib), root, n)
  {
    Visits(lib, root, [root], 0, {root});
    var seen := Flat(lib, root, [root], 0, {root}).seen;
    forall n | Leads(Runs(lib), root, n) ensures n in seen {
      forall b | Edge(Runs(lib), root, b) ensures b in seen {
        var s :| s in lib[root] && s.link == Some(b) && Followable(lib, s.link);
        var k :| 0 <= k < |lib[root]| && lib[root][k] == s;
      }
      var p :| Chain(Runs(lib), root, n, p);
      ClosedHolds(Runs(lib), root, n, seen, p);
    }
  }

  /** Of each visited procedure, all its steps, once, in its own order; of any other, none. */
  lemma {:induction false} Parts(lib: Library, p: Id, chain: seq<Id>, i: nat, seen: set<Id>, q: Id)
    requires p in lib && i <= |lib[p]| && chain != [] && p in seen && q in lib
    ensures var r := Flat(lib, p, chain, i, seen);
      Keys(Part(r.out, q)) == if q == p then Own(lib, p, i) else if q in r.seen - seen then Own(lib, q, 0) else []
    decreases lib.Keys - seen, |lib[p]| - i, 1
  {
    hide EntryAt, Followable, Inlined, Part, Own, Flat;
    FlatStep(lib, p, chain, i, seen);
    if i < |lib[p]| {
      var e, inner := EntryAt(lib, p, chain, i, seen), Inlined(lib, p, chain, i, seen);
      var rest := Flat(lib, p, chain, i + 1, inner.seen);
      InlinedParts(lib, p, chain, i, seen, q);
      Parts(lib, p, chain, i + 1, inner.seen, q);
      PartOfJoin(e, inner.out, rest.out, q);
      OwnFirst(lib, p, chain, i, seen);
      assert [] + Keys(Part(inner.out, q)) == Keys(Part(inner.out, q));
    } else {
      OwnEnds(lib, p, q);
    }
  }

  lemma OwnEnds(lib: Library, p: Id, q: Id)
    requires p in lib
    ensures Own(lib, p, |lib[p]|) == [] && Keys(Part([], q)) == []
  {
  }

  lemma OwnFirst(lib: Library, p: Id, chain: seq<Id>, i: nat, seen: set<Id>)
    requires p in lib && i < |lib[p]| && chain != []
    ensures EntryAt(lib, p, chain, i, seen).source == p
    ensures Own(lib, p, i) == [KeyOf(EntryAt(lib, p, chain, i, seen))] + Own(lib, p, i + 1)
  {
  }

  lemma {:induction false} InlinedParts(lib: Library, p: Id, chain: seq<Id>, i: nat, seen: set<Id>, q: Id)
    requires p in lib && i < |lib[p]| && chain != [] && p in seen && q in lib
    ensures var r := Inlined(lib, p, chain, i, seen);
      Keys(Part(r.out, q)) == if q in r.seen - seen then Own(lib, q, 0) else []
    decreases lib.Keys - seen, |lib[p]| - i, 0
  {
    var link := lib[p][i].link;
    if Followable(lib, link) && link.value !in seen {
      Parts(lib, link.value, chain + [link.value], 0, seen + {link.value}, q);
    }
  }

  /** The flattened method: every reached procedure's own steps and nothing else. */
  lemma MethodParts(lib: Library, root: Id, q: Id)
    requires root in lib && q in lib
    ensures Keys(Part(Method(lib, root), q)) == if q == root || Leads(Runs(lib), root, q) then Own(lib, q, 0) else []
  {
    Parts(lib, root, [root], 0, {root}, q);
    VisitedIsReachable(lib, root);
  }

  /** Every entry is a step of its source; no step appears twice, and a procedure's steps keep their order. */
  lemma MethodSteps(lib: Library, root: Id)
    requires root in lib
    ensures forall e :: e in Method(lib, root) ==>
      e.source in lib && 1 <= e.step <= |lib[e.source]| && e.title == lib[e.source][e.step - 1].title
    ensures forall a, b :: 0 <= a < b < |Method(lib, root)| && Method(lib, root)[a].source == Method(lib, root)[b].source ==>
      Method(lib, root)[a].step < Method(lib, root)[b].step
  {
    hide *;
    var out := Method(lib, root);
    forall a | 0 <= a < |out|
      ensures out[a].source in lib && 1 <= out[a].step <= |lib[out[a].source]|
      ensures out[a].title == lib[out[a].source][out[a].step - 1].title
    {
      EntryKnown(lib, root, a);
    }
    forall a, b | 0 <= a < b < |out| && out[a].source == out[b].source
      ensures out[a].step < out[b].step
    {
      EntriesOrdered(lib, root, a, b);
    }
  }

  lemma SourceKnown(lib: Library, root: Id, a: nat)
    requires root in lib && a < |Method(lib, root)|
    ensures var q := Method(lib, root)[a].source;
      q in lib && Keys(Part(Method(lib, root), q)) == Own(lib, q, 0)
  {
    var q := Method(lib, root)[a].source;
    Visits(lib, root, [root], 0, {root});
    VisitedIsReachable(lib, root);
    assert Method(lib, root)[a] in Method(lib, root);
    hide Flat, Part, Own, Runs, Leads;
    MethodParts(lib, root, q);
  }

  lemma OwnAt(lib: Library, q: Id, k: nat)
    requires q in lib && k < |Own(lib, q, 0)|
    ensures |Own(lib, q, 0)| == |lib[q]| && Own(lib, q, 0)[k] == Key(q, k + 1, lib[q][k].title)
  {
  }

  lemma EntryKnown(lib: Library, root: Id, a: nat)
    requires root in lib && a < |Method(lib, root)|
    ensures var e := Method(lib, root)[a];
      e.source in lib && 1 <= e.step <= |lib[e.source]| && e.title == lib[e.source][e.step - 1].title
  {
    hide Method, Part, Own;
    var out := Method(lib, root);
    var q := out[a].source;
    SourceKnown(lib, root, a);
    var k := PartIndex(out, a);
    assert Keys(Part(out, q))[k] == KeyOf(out[a]);
    OwnAt(lib, q, k);
  }

  lemma EntriesOrdered(lib: Library, root: Id, a: nat, b: nat)
    requires root in lib && a < b < |Method(lib, root)| && Method(lib, root)[a].source == Method(lib, root)[b].source
    ensures Method(lib, root)[a].step < Method(lib, root)[b].step
  {
    hide Method, Part, Own;
    var out := Method(lib, root);
    var q := out[a].source;
    SourceKnown(lib, root, a);
    var i, j := PartPair(out, a, b);
    assert Keys(Part(out, q))[i] == KeyOf(out[a]) && Keys(Part(out, q))[j] == KeyOf(out[b]);
    OwnAt(lib, q, i);
    OwnAt(lib, q, j);
  }

  /** Where an entry lands in its procedure's part. */
  lemma PartIndex(out: seq<Entry>, a: nat) returns (k: nat)
    requires a < |out|
    ensures k < |Part(out, out[a].source)| && Part(out, out[a].source)[k] == out[a]
  {
    PartOfConcat(out[..a], out[a..], out[a].source);
    assert out == out[..a] + out[a..];
    k := |Part(out[..a], out[a].source)|;
  }

  /** Depth rises by one only into step 1 of the linked procedure, and step 1 of a linked procedure comes only so. */
  ghost predicate Descends(a: Entry, b: Entry) {
    b.depth == a.depth + 1 && a.linked == Some(b.source) && b.step == 1
  }

  ghost predicate ProperDepths(out: seq<Entry>) {
    forall j, k :: 0 <= j < |out| && 0 <= k < |out| && k == j + 1 ==>
      (out[k].depth <= out[j].depth && out[k].step != 1) || Descends(out[j], out[k])
  }

  lemma {:induction false} Depths(lib: Library, p: Id, chain: seq<Id>, i: nat, seen: set<Id>)
    requires p in lib && i <= |lib[p]| && chain != [] && p in seen
    ensures var out := Flat(lib, p, chain, i, seen).out;
      && ProperDepths(out)
      && (out != [] ==> KeyOf(out[0]) == Key(p, i + 1, lib[p][i].title))
      && (out == [] <==> i == |lib[p]|)
      && (forall e :: e in out ==> e.depth >= |chain| - 1 && (e.depth == |chain| - 1 <==> e.source == p))
    decreases lib.Keys - seen, |lib[p]| - i
  {
    hide Flat, Inlined, EntryAt, ProperDepths, Leads, Runs;
    FlatStep(lib, p, chain, i, seen);
    if i == |lib[p]| {
      NoDepths();
    } else {
      var e, inner := EntryAt(lib, p, chain, i, seen), Inlined(lib, p, chain, i, seen);
      var rest := Flat(lib, p, chain, i + 1, inner.seen);
      var link := lib[p][i].link;
      InlinedIs(lib, p, chain, i, seen);
      EntryIs(lib, p, chain, i, seen);
      NoDepths();
      if Followable(lib, link) && link.value !in seen {
        Depths(lib, link.value, chain + [link.value], 0, seen + {link.value});
        Visits(lib, link.value, chain + [link.value], 0, seen + {link.value});
      }
      Depths(lib, p, chain, i + 1, inner.seen);
      DepthsJoin(e, inner.out, rest.out);
    }
  }

  lemma NoDepths()
    ensures ProperDepths([])
  {
  }

  lemma DepthsJoin(e: Entry, inner: seq<Entry>, rest: seq<Entry>)
    requires ProperDepths(inner) && ProperDepths(rest)
    requires inner != [] ==> Descends(e, inner[0])
    requires forall x :: x in inner ==> x.depth > e.depth
    requires rest != [] ==> rest[0].depth == e.depth && rest[0].step != 1
    ensures ProperDepths([e] + inner + rest)
  {
    var out := [e] + inner + rest;
    forall j, k | 0 <= j < |out| && 0 <= k < |out| && k == j + 1
      ensures (out[k].depth <= out[j].depth && out[k].step != 1) || Descends(out[j], out[k])
    {
      if 1 <= j && k <= |inner| {
        assert out[j] == inner[j - 1] && out[k] == inner[k - 1];
      } else if j > |inner| {
        assert out[j] == rest[j - 1 - |inner|] && out[k] == rest[k - 1 - |inner|];
      } else if j == |inner| && j > 0 {
        assert out[j] == inner[j - 1] && inner[j - 1] in inner;
      }
    }
  }

  /** Between two steps of one procedure the method stays at least that deep. */
  ghost predicate Nested(out: seq<Entry>) {
    forall a, b, c :: 0 <= a < b < c < |out| && out[a].source == out[c].source ==> out[a].depth <= out[b].depth
  }

  lemma {:induction false} StaysNested(lib: Library, p: Id, chain: seq<Id>, i: nat, seen: set<Id>)
    requires p in lib && i <= |lib[p]| && chain != [] && p in seen
    ensures Nested(Flat(lib, p, chain, i, seen).out)
    decreases lib.Keys - seen, |lib[p]| - i
  {
    hide Flat, Inlined, EntryAt, ProperDepths, Nested, Leads, Runs;
    FlatStep(lib, p, chain, i, seen);
    NoneNested();
    if i < |lib[p]| {
      var e, inner := EntryAt(lib, p, chain, i, seen), Inlined(lib, p, chain, i, seen);
      var rest := Flat(lib, p, chain, i + 1, inner.seen);
      var link := lib[p][i].link;
      InlinedIs(lib, p, chain, i, seen);
      EntryIs(lib, p, chain, i, seen);
      if Followable(lib, link) && link.value !in seen {
        StaysNested(lib, link.value, chain + [link.value], 0, seen + {link.value});
      }
      StaysNested(lib, p, chain, i + 1, inner.seen);
      Sources(lib, p, chain, i, seen);
      Depths(lib, p, chain, i, seen);
      DeepBelow(lib, p, chain, i, seen);
      NestedJoin(e, inner.out, rest.out);
    }
  }

  lemma NoneNested()
    ensures Nested([])
  {
  }

  /** What a step brings in comes from other procedures than the steps behind it, its own procedure included. */
  lemma Sources(lib: Library, p: Id, chain: seq<Id>, i: nat, seen: set<Id>)
    requires p in lib && i < |lib[p]| && chain != [] && p in seen
    ensures var inner := Inlined(lib, p, chain, i, seen);
      && (forall x :: x in inner.out ==> x.source != p)
      && forall x, y :: x in inner.out && y in Flat(lib, p, chain, i + 1, inner.seen).out ==> x.source != y.source
  {
    hide *;
    var inner := Inlined(lib, p, chain, i, seen);
    InlinedVisits(lib, p, chain, i, seen);
    Visits(lib, p, chain, i + 1, inner.seen);
  }

  /** What a step brings in is deeper than the step, and nothing behind it is higher. */
  lemma DeepBelow(lib: Library, p: Id, chain: seq<Id>, i: nat, seen: set<Id>)
    requires p in lib && i < |lib[p]| && chain != [] && p in seen
    ensures var inner := Inlined(lib, p, chain, i, seen);
      && (forall x :: x in inner.out ==> x.depth > |chain| - 1)
      && forall x :: x in Flat(lib, p, chain, i + 1, inner.seen).out ==> x.depth >= |chain| - 1 && (x.source == p ==> x.depth == |chain| - 1)
  {
    hide Flat, Inlined, EntryAt, ProperDepths, Leads, Runs;
    var link := lib[p][i].link;
    InlinedIs(lib, p, chain, i, seen);
    if Followable(lib, link) && link.value !in seen {
      Depths(lib, link.value, chain + [link.value], 0, seen + {link.value});
    }
    Depths(lib, p, chain, i + 1, Inlined(lib, p, chain, i, seen).seen);
  }

  lemma NestedJoin(e: Entry, inner: seq<Entry>, rest: seq<Entry>)
    requires Nested(inner) && Nested(rest)
    requires forall x, y :: x in inner && y in rest ==> x.source != y.source
    requires forall x :: x in inner ==> x.depth > e.depth && x.source != e.source
    requires forall x :: x in rest ==> x.depth >= e.depth && (x.source == e.source ==> x.depth == e.depth)
    ensures Nested([e] + inner + rest)
  {
    var out := [e] + inner + rest;
    forall a, b, c | 0 <= a < b < c < |out| && out[a].source == out[c].source
      ensures out[a].depth <= out[b].depth
    {
      NestedAt(e, inner, rest, a, b, c);
    }
  }

  lemma NestedAt(e: Entry, inner: seq<Entry>, rest: seq<Entry>, a: nat, b: nat, c: nat)
    requires Nested(inner) && Nested(rest)
    requires forall x, y :: x in inner && y in rest ==> x.source != y.source
    requires forall x :: x in inner ==> x.depth > e.depth && x.source != e.source
    requires forall x :: x in rest ==> x.depth >= e.depth && (x.source == e.source ==> x.depth == e.depth)
    requires a < b < c < |[e] + inner + rest| && ([e] + inner + rest)[a].source == ([e] + inner + rest)[c].source
    ensures ([e] + inner + rest)[a].depth <= ([e] + inner + rest)[b].depth
  {
    var out, n := [e] + inner + rest, |inner| + 1;
    if 0 < a < n {
      assert out[a] == inner[a - 1];
      SameSide(e, inner, rest, a, c);
      assert out[b] == inner[b - 1] && out[c] == inner[c - 1];
    } else if a >= n {
      assert out[a] == rest[a - n] && out[b] == rest[b - n] && out[c] == rest[c - n];
    } else {
      assert out[b] == if b < n then inner[b - 1] else rest[b - n];
    }
  }

  lemma SameSide(e: Entry, inner: seq<Entry>, rest: seq<Entry>, a: nat, c: nat)
    requires forall x, y :: x in inner && y in rest ==> x.source != y.source
    requires 0 < a <= |inner| && a < c < |[e] + inner + rest|
    requires ([e] + inner + rest)[a].source == ([e] + inner + rest)[c].source
    ensures c <= |inner|
  {
    var out := [e] + inner + rest;
    assert out[a] == inner[a - 1] && inner[a - 1] in inner;
    forall k | |inner| < k < |out| ensures out[k].source != out[a].source {
      assert out[k] == rest[k - 1 - |inner|] && out[k] in rest;
    }
  }

  /** A step marked circular links back into its own chain, so its link lies on a circle. */
  lemma {:induction false} CircularIsCircle(lib: Library, p: Id, chain: seq<Id>, i: nat, seen: set<Id>)
    requires p in lib && i <= |lib[p]| && IsPath(Links(lib), chain) && chain[|chain| - 1] == p
    ensures forall e :: e in Flat(lib, p, chain, i, seen).out && e.circular ==>
      e.linked.Some? && OnCircle(Links(lib), e.source, e.linked.value)
    decreases lib.Keys - seen, |lib[p]| - i
  {
    assert chain != [];
    hide Flat, Inlined, EntryAt, OnCircle, IsPath, Links;
    FlatStep(lib, p, chain, i, seen);
    if i < |lib[p]| {
      var e, inner := EntryAt(lib, p, chain, i, seen), Inlined(lib, p, chain, i, seen);
      var link := lib[p][i].link;
      InlinedIs(lib, p, chain, i, seen);
      BackLink(lib, p, chain, i, seen);
      if Followable(lib, link) && link.value !in seen {
        LinkEdge(lib, p, link.value);
        PathExtend(Links(lib), chain, link.value);
        CircularIsCircle(lib, link.value, chain + [link.value], 0, seen + {link.value});
      }
      CircularIsCircle(lib, p, chain, i + 1, inner.seen);
    }
  }

  lemma BackLink(lib: Library, p: Id, chain: seq<Id>, i: nat, seen: set<Id>)
    requires p in lib && i < |lib[p]| && IsPath(Links(lib), chain) && chain[|chain| - 1] == p
    ensures var e := EntryAt(lib, p, chain, i, seen);
      e.circular ==> e.linked.Some? && OnCircle(Links(lib), e.source, e.linked.value)
  {
    var link := lib[p][i].link;
    if link.Some? {
      LinkEdge(lib, p, link.value);
      hide Links;
      if k :| 0 <= k < |chain| && chain[k] == link.value && k < |chain| - 1 {
        PathSuffix(Links(lib), chain, k);
        assert Chain(Links(lib), link.value, p, chain[k..]);
      }
    }
  }

  /** In a library without circles nothing is ever marked circular. */
  lemma NeverCircular(lib: Library, root: Id)
    requires root in lib && Acyclic(Links(lib))
    ensures forall e :: e in Method(lib, root) ==> !e.circular
  {
    CircularIsCircle(lib, root, [root], 0, {root});
    forall e | e in Method(lib, root) && e.circular ensures false {
      EdgeLeads(Links(lib), e.source, e.linked.value);
      if e.source != e.linked.value {
        LeadsTrans(Links(lib), e.source, e.linked.value, e.source);
      }
    }
  }

  /** A step marked inlined above really has all the linked procedure's steps before it. */
  ghost predicate AllAbove(lib: Library, out: seq<Entry>, j: nat, q: Id)
    requires j <= |out| && q in lib
  {
    Keys(Part(out[..j], q)) == Own(lib, q, 0)
  }

  lemma {:induction false} InlinedAboveIsAbove(lib: Library, p: Id, chain: seq<Id>, i: nat, seen: set<Id>, j: nat)
    requires p in lib && i <= |lib[p]| && chain != [] && chain[|chain| - 1] == p && p in seen
    requires j < |Flat(lib, p, chain, i, seen).out| && Flat(lib, p, chain, i, seen).out[j].inlinedAbove
    ensures var out := Flat(lib, p, chain, i, seen).out;
      out[j].linked.Some? && out[j].linked.value !in chain &&
      (out[j].linked.value in seen || (out[j].linked.value in lib && AllAbove(lib, out, j, out[j].linked.value)))
    decreases lib.Keys - seen, |lib[p]| - i
  {
    var e, inner := EntryAt(lib, p, chain, i, seen), Inlined(lib, p, chain, i, seen);
    var rest := Flat(lib, p, chain, i + 1, inner.seen);
    var out := [e] + inner.out + rest.out;
    var n := |inner.out| + 1;
    var link := lib[p][i].link;
    if 0 < j < n {
      InlinedAboveIsAbove(lib, link.value, chain + [link.value], 0, seen + {link.value}, j - 1);
      var q := out[j].linked.value;
      assert out[j] == inner.out[j - 1];
      assert q !in chain && q != p by { assert p in chain; }
      if q !in seen {
        AboveInInner(lib, e, inner.out, rest.out, j, q);
      }
    } else if j >= n {
      InlinedAboveIsAbove(lib, p, chain, i + 1, inner.seen, j - n);
      var q := out[j].linked.value;
      assert out[j] == rest.out[j - n];
      assert q != p by { assert p in chain; }
      if q !in seen {
        InlinedVisits(lib, p, chain, i, seen);
        InlinedParts(lib, p, chain, i, seen, q);
        if q in inner.seen {
          Visits(lib, p, chain, i + 1, inner.seen);
          PartEmpty(rest.out[..j - n], q);
        }
        AboveInRest(lib, e, inner.out, rest.out, j, q);
      }
    }
  }

  lemma AboveInInner(lib: Library, e: Entry, inner: seq<Entry>, rest: seq<Entry>, j: nat, q: Id)
    requires 0 < j <= |inner| && e.source != q && q in lib && AllAbove(lib, inner, j - 1, q)
    ensures AllAbove(lib, [e] + inner + rest, j, q)
  {
    assert ([e] + inner + rest)[..j] == [e] + inner[..j - 1] + [];
    PartOfJoin(e, inner[..j - 1], [], q);
  }

  lemma AboveInRest(lib: Library, e: Entry, inner: seq<Entry>, rest: seq<Entry>, j: nat, q: Id)
    requires |inner| < j <= |inner| + 1 + |rest| && e.source != q && q in lib
    requires Keys(Part(inner, q)) + Keys(Part(rest[..j - 1 - |inner|], q)) == Own(lib, q, 0)
    ensures AllAbove(lib, [e] + inner + rest, j, q)
  {
    assert ([e] + inner + rest)[..j] == [e] + inner + rest[..j - 1 - |inner|];
    PartOfJoin(e, inner, rest[..j - 1 - |inner|], q);
    assert [] + Keys(Part(inner, q)) == Keys(Part(inner, q));
  }

  /** In the whole method the mark means what it tells the reader: those steps are above, all of them. */
  lemma MethodInlinedAbove(lib: Library, root: Id, j: nat)
    requires root in lib && j < |Method(lib, root)| && Method(lib, root)[j].inlinedAbove
    ensures Method(lib, root)[j].linked.Some? && Method(lib, root)[j].linked.value in lib
    ensures AllAbove(lib, Method(lib, root), j, Method(lib, root)[j].linked.value)
  {
    InlinedAboveIsAbove(lib, root, [root], 0, {root}, j);
  }

  /** Every entry reads as the step it names. */
  lemma {:induction false} EntriesRead(lib: Library, p: Id, chain: seq<Id>, i: nat, seen: set<Id>)
    requires p in lib && i <= |lib[p]| && chain != []
    ensures forall e :: e in Flat(lib, p, chain, i, seen).out ==>
      e.source in lib && 1 <= e.step <= |lib[e.source]| && (e.source == p && p in seen ==> e.step > i)
      && var s := lib[e.source][e.step - 1]; e.title == s.title && e.text == s.text && e.linked == s.link
    decreases lib.Keys - seen, |lib[p]| - i
  {
    if i < |lib[p]| {
      var inner := Inlined(lib, p, chain, i, seen);
      var link := lib[p][i].link;
      if Followable(lib, link) && link.value !in seen {
        EntriesRead(lib, link.value, chain + [link.value], 0, seen + {link.value});
        Visits(lib, link.value, chain + [link.value], 0, seen + {link.value});
      }
      EntriesRead(lib, p, chain, i + 1, inner.seen);
    }
  }

  lemma {:induction false} PartHas(out: seq<Entry>, q: Id, k: nat) returns (b: nat)
    requires k < |Part(out, q)|
    ensures b < |out| && out[b] == Part(out, q)[k] && out[b].source == q
  {
    if out[0].source == q && k == 0 {
      b := 0;
    } else {
      b := PartHas(out[1..], q, if out[0].source == q then k - 1 else k);
      b := b + 1;
    }
  }

  ghost predicate Begins(out: seq<Entry>, n: nat, q: Id) {
    exists b :: 0 <= b < n && b < |out| && out[b].source == q && out[b].step == 1
  }

  /** The first step that links a procedure has that procedure's first step below it, no further than the next entry. */
  lemma {:induction false} FirstLinkInlines(lib: Library, p: Id, chain: seq<Id>, i: nat, seen: set<Id>, a: nat, q: Id)
    requires p in lib && i <= |lib[p]| && chain != [] && p in seen && q in lib && lib[q] != [] && q !in seen
    requires a < |Flat(lib, p, chain, i, seen).out| && Followable(lib, Some(q))
    requires Flat(lib, p, chain, i, seen).out[a].linked == Some(q)
    ensures Begins(Flat(lib, p, chain, i, seen).out, a + 2, q)
    decreases lib.Keys - seen, |lib[p]| - i
  {
    EntryLink(lib, p, chain, i, seen);
    hide Begins, EntryAt;
    var e, inner := EntryAt(lib, p, chain, i, seen), Inlined(lib, p, chain, i, seen);
    var rest := Flat(lib, p, chain, i + 1, inner.seen);
    var n := |inner.out| + 1;
    var link := lib[p][i].link;
    if a == 0 || (a < n && q == link.value) {
      Depths(lib, q, chain + [q], 0, seen + {q});
      BeginsHere(inner.out, 0, q);
      BeginsJoin(e, inner.out, rest.out, 1, q);
      BeginsSooner([e] + inner.out + rest.out, 2, a + 2, q);
    } else if a < n {
      FirstLinkInlines(lib, link.value, chain + [link.value], 0, seen + {link.value}, a - 1, q);
      BeginsJoin(e, inner.out, rest.out, a + 1, q);
    } else if q in inner.seen {
      InlinedParts(lib, p, chain, i, seen, q);
      var b := OwnBegins(lib, inner.out, q);
      BeginsJoin(e, inner.out, rest.out, b + 1, q);
      BeginsSooner([e] + inner.out + rest.out, b + 2, a + 2, q);
    } else {
      FirstLinkInlines(lib, p, chain, i + 1, inner.seen, a - n, q);
      BeginsJoin(e, inner.out, rest.out, a - n + 2, q);
    }
  }

  /** A linked procedure with steps starts right below the first step that links it, one deeper. */
  lemma InlinedRightBelow(lib: Library, root: Id, a: nat, q: Id)
    requires root in lib && q in lib && lib[q] != [] && q != root && Followable(lib, Some(q))
    requires var out := Method(lib, root);
      a < |out| && out[a].linked == Some(q) && forall b :: 0 <= b < a ==> out[b].linked != Some(q)
    ensures var out := Method(lib, root);
      a + 1 < |out| && out[a + 1].source == q && out[a + 1].step == 1 && out[a + 1].depth == out[a].depth + 1
  {
    var out := Method(lib, root);
    FirstLinkInlines(lib, root, [root], 0, {root}, a, q);
    Depths(lib, root, [root], 0, {root});
    hide Flat;
    var b :| 0 <= b < a + 2 && b < |out| && out[b].source == q && out[b].step == 1;
    assert b > 0 && Descends(out[b - 1], out[b]);
  }

  lemma EntryLink(lib: Library, p: Id, chain: seq<Id>, i: nat, seen: set<Id>)
    requires p in lib && chain != []
    ensures i < |lib[p]| ==> EntryAt(lib, p, chain, i, seen).linked == lib[p][i].link
  {
  }

  lemma OwnBegins(lib: Library, out: seq<Entry>, q: Id) returns (b: nat)
    requires q in lib && lib[q] != [] && Keys(Part(out, q)) == Own(lib, q, 0)
    ensures b < |out| && Begins(out, b + 1, q)
  {
    b := PartHas(out, q, 0);
    assert Keys(Part(out, q))[0] == KeyOf(out[b]);
  }

  lemma BeginsHere(out: seq<Entry>, b: nat, q: Id)
    requires b < |out| && out[b].source == q && out[b].step == 1
    ensures Begins(out, b + 1, q)
  {
  }

  lemma BeginsSooner(out: seq<Entry>, m: nat, n: nat, q: Id)
    requires m <= n && Begins(out, m, q)
    ensures Begins(out, n, q)
  {
  }

  lemma BeginsJoin(e: Entry, inner: seq<Entry>, rest: seq<Entry>, m: nat, q: Id)
    ensures Begins(inner, m, q) ==> Begins([e] + inner + rest, m + 1, q)
    ensures Begins(rest, m, q) ==> Begins([e] + inner + rest, m + |inner| + 1, q)
  {
    var out := [e] + inner + rest;
    if b :| 0 <= b < m && b < |inner| && inner[b].source == q && inner[b].step == 1 {
      assert out[b + 1] == inner[b];
    }
    if b :| 0 <= b < m && b < |rest| && rest[b].source == q && rest[b].step == 1 {
      assert out[b + |inner| + 1] == rest[b];
    }
  }

  // ---- exactly which entries are marked

  /** Entry j stands below a step of l, at k, with nothing between that comes up above it. */
  ghost predicate Under(out: seq<Entry>, k: nat, j: nat, l: Id)
    requires k <= j < |out|
  {
    out[k].source == l && forall m :: k <= m <= j ==> out[m].depth >= out[k].depth
  }

  ghost predicate Inside(out: seq<Entry>, j: nat, l: Id)
    requires j < |out|
  {
    exists k :: 0 <= k <= j && Under(out, k, j, l)
  }

  ghost predicate LinkedAbove(out: seq<Entry>, j: nat, l: Id)
    requires j <= |out|
  {
    exists b :: 0 <= b < j && out[b].linked == Some(l)
  }

  lemma InsideInner(e: Entry, inner: seq<Entry>, rest: seq<Entry>, j: nat, l: Id)
    requires j < |inner| && forall x :: x in inner ==> x.depth > e.depth
    ensures Inside([e] + inner + rest, j + 1, l) <==> e.source == l || Inside(inner, j, l)
  {
    var out := [e] + inner + rest;
    assert forall m :: 0 < m <= j + 1 ==> out[m] == inner[m - 1] && out[m] in inner;
    if e.source == l {
      assert Under(out, 0, j + 1, l);
    }
    if k :| 0 <= k <= j && Under(inner, k, j, l) {
      assert Under(out, k + 1, j + 1, l);
    }
    if e.source != l && Inside(out, j + 1, l) {
      var k :| 0 <= k <= j + 1 && Under(out, k, j + 1, l);
      assert Under(inner, k - 1, j, l) by {
        assert forall m :: k - 1 <= m <= j ==> inner[m] == out[m + 1];
      }
    }
  }

  lemma UnderShifted(out: seq<Entry>, part: seq<Entry>, d: nat, k: nat, j: nat, l: Id)
    requires k <= j < |part| && j + d < |out| && forall m :: k <= m <= j ==> part[m] == out[m + d]
    ensures Under(out, k + d, j + d, l) <==> Under(part, k, j, l)
  {
    if Under(part, k, j, l) {
      forall m | k + d <= m <= j + d ensures out[m].depth >= out[k + d].depth {
        assert part[m - d] == out[m];
      }
    }
  }

  /** The list ends with `part`, from index d on. */
  ghost predicate EndsWith(out: seq<Entry>, part: seq<Entry>, d: nat) {
    |out| == d + |part| && forall m :: 0 <= m < |part| ==> part[m] == out[m + d]
  }

  lemma InsidePart(out: seq<Entry>, part: seq<Entry>, d: nat, j: nat, l: Id)
    requires EndsWith(out, part, d) && j < |part| && Inside(part, j, l)
    ensures Inside(out, j + d, l)
  {
    var k :| 0 <= k <= j && Under(part, k, j, l);
    UnderShifted(out, part, d, k, j, l);
  }

  lemma InsideOnly(out: seq<Entry>, part: seq<Entry>, d: nat, j: nat, l: Id)
    requires EndsWith(out, part, d) && 0 < d && j < |part| && Inside(out, j + d, l) && out[0].source != l
    requires out[d].depth == out[0].depth && forall m :: 0 < m < d ==> out[m].depth > out[0].depth
    ensures Inside(part, j, l)
  {
    var k :| 0 <= k <= j + d && Under(out, k, j + d, l);
    assert k >= d;
    UnderShifted(out, part, d, k - d, j, l);
  }

  lemma AllUnder(out: seq<Entry>, j: nat)
    requires j < |out| && forall m :: 0 <= m <= j ==> out[m].depth >= out[0].depth
    ensures Inside(out, j, out[0].source)
  {
    assert Under(out, 0, j, out[0].source);
  }

  ghost predicate Deeper(out: seq<Entry>, n: nat) {
    && 0 < n < |out| && out[n].depth == out[0].depth
    && (forall m :: 0 < m < n ==> out[m].depth > out[0].depth)
    && forall m :: n <= m < |out| ==> out[m].depth >= out[0].depth
  }

  lemma JoinDeeper(e: Entry, inner: seq<Entry>, rest: seq<Entry>)
    requires rest != [] && forall x :: x in inner ==> x.depth > e.depth
    requires forall x :: x in rest ==> x.depth >= e.depth
    requires rest[0].depth == e.depth
    ensures var out, n := [e] + inner + rest, |inner| + 1; Deeper(out, n) && EndsWith(out, rest, n) && out[0] == e
  {
    var out, n := [e] + inner + rest, |inner| + 1;
    forall m | 0 < m < n ensures out[m].depth > e.depth {
      assert out[m] == inner[m - 1] && out[m] in inner;
    }
    forall m | n <= m < |out| ensures out[m].depth >= e.depth {
      assert out[m] == rest[m - n] && out[m] in rest;
    }
  }

  lemma InsideRest(e: Entry, inner: seq<Entry>, rest: seq<Entry>, j: nat, l: Id)
    requires j < |rest| && forall x :: x in inner ==> x.depth > e.depth
    requires forall x :: x in rest ==> x.depth >= e.depth
    requires rest[0].depth == e.depth
    ensures Inside([e] + inner + rest, j + 1 + |inner|, l) <==> e.source == l || Inside(rest, j, l)
  {
    hide *;
    JoinDeeper(e, inner, rest);
    InsideJoined([e] + inner + rest, rest, |inner| + 1, j, l);
  }

  lemma InsideJoined(out: seq<Entry>, rest: seq<Entry>, n: nat, j: nat, l: Id)
    requires Deeper(out, n) && EndsWith(out, rest, n) && j < |rest|
    ensures Inside(out, j + n, l) <==> out[0].source == l || Inside(rest, j, l)
  {
    AllUnder(out, j + n);
    hide Inside, EndsWith;
    if Inside(rest, j, l) {
      InsidePart(out, rest, n, j, l);
    }
    if out[0].source != l && Inside(out, j + n, l) {
      InsideOnly(out, rest, n, j, l);
    }
  }

  lemma InsideFirst(out: seq<Entry>, l: Id)
    requires out != []
    ensures Inside(out, 0, l) <==> out[0].source == l
  {
    assert out[0].source == l ==> Under(out, 0, 0, l);
  }

  /** Whether an entry is marked circular, seen from a list whose chain is known. */
  ghost predicate CircularAt(out: seq<Entry>, chain: seq<Id>, j: nat)
    requires j < |out|
  {
    out[j].circular <==> out[j].linked.Some? && (out[j].linked.value in chain || Inside(out, j, out[j].linked.value))
  }

  lemma CircularFirst(lib: Library, p: Id, chain: seq<Id>, i: nat, seen: set<Id>, out: seq<Entry>)
    requires p in lib && i < |lib[p]| && chain != [] && p in chain && out != [] && out[0] == EntryAt(lib, p, chain, i, seen)
    ensures CircularAt(out, chain, 0)
  {
    if out[0].linked.Some? {
      InsideFirst(out, out[0].linked.value);
    }
  }

  lemma CircularInner(e: Entry, inner: seq<Entry>, rest: seq<Entry>, chain: seq<Id>, q: Id, j: nat)
    requires j < |inner| && CircularAt(inner, chain + [q], j) && e.source in chain
    requires inner[0].source == q && forall x :: x in inner ==> x.depth >= inner[0].depth > e.depth
    ensures CircularAt([e] + inner + rest, chain, j + 1)
  {
    hide Inside;
    assert ([e] + inner + rest)[j + 1] == inner[j];
    var l := inner[j].linked;
    if l.Some? {
      InsideInner(e, inner, rest, j, l.value);
      WholeInside(inner, j, inner[0].depth);
    }
  }

  lemma CircularRest(e: Entry, inner: seq<Entry>, rest: seq<Entry>, chain: seq<Id>, j: nat)
    requires j < |rest| && CircularAt(rest, chain, j) && e.source in chain
    requires forall x :: x in inner ==> x.depth > e.depth
    requires rest[0].depth == e.depth && forall x :: x in rest ==> x.depth >= e.depth
    ensures CircularAt([e] + inner + rest, chain, j + 1 + |inner|)
  {
    hide Inside;
    assert ([e] + inner + rest)[j + 1 + |inner|] == rest[j];
    if rest[j].linked.Some? {
      InsideRest(e, inner, rest, j, rest[j].linked.value);
    }
  }

  /** Marked circular: the link goes to the procedure itself or one it stands inside of. */
  lemma {:induction false} Circulars(lib: Library, p: Id, chain: seq<Id>, i: nat, seen: set<Id>, j: nat)
    requires p in lib && i <= |lib[p]| && chain != [] && p in chain && p in seen
    requires j < |Flat(lib, p, chain, i, seen).out|
    ensures CircularAt(Flat(lib, p, chain, i, seen).out, chain, j)
    decreases lib.Keys - seen, |lib[p]| - i
  {
    hide CircularAt, Flat, Inlined, EntryAt, ProperDepths;
    FlatStep(lib, p, chain, i, seen);
    InlinedIs(lib, p, chain, i, seen);
    EntryIs(lib, p, chain, i, seen);
    var e, inner := EntryAt(lib, p, chain, i, seen), Inlined(lib, p, chain, i, seen);
    var rest := Flat(lib, p, chain, i + 1, inner.seen);
    var n := |inner.out| + 1;
    var link := lib[p][i].link;
    if Followable(lib, link) && link.value !in seen {
      Depths(lib, link.value, chain + [link.value], 0, seen + {link.value});
    }
    Depths(lib, p, chain, i + 1, inner.seen);
    if j == 0 {
      CircularFirst(lib, p, chain, i, seen, [e] + inner.out + rest.out);
    } else if j < n {
      Circulars(lib, link.value, chain + [link.value], 0, seen + {link.value}, j - 1);
      assert inner.out[0] in inner.out;
      CircularInner(e, inner.out, rest.out, chain, link.value, j - 1);
    } else {
      Circulars(lib, p, chain, i + 1, inner.seen, j - n);
      assert rest.out[0] in rest.out;
      CircularRest(e, inner.out, rest.out, chain, j - n);
    }
  }

  lemma WholeInside(out: seq<Entry>, j: nat, depth: nat)
    requires j < |out| && out[0].depth == depth && forall x :: x in out ==> x.depth >= depth
    ensures Inside(out, j, out[0].source)
  {
    assert Under(out, 0, j, out[0].source);
  }

  /** Every procedure newly visited was linked by an entry, and every link that can be followed was visited. */
  lemma {:induction false} VisitedLinks(lib: Library, p: Id, chain: seq<Id>, i: nat, seen: set<Id>)
    requires p in lib && i <= |lib[p]| && chain != []
    ensures var r := Flat(lib, p, chain, i, seen);
      && (forall n :: n in r.seen - seen ==> Followable(lib, Some(n)) && LinkedAbove(r.out, |r.out|, n))
      && (forall e :: e in r.out && Followable(lib, e.linked) ==> e.linked.value in r.seen)
    decreases lib.Keys - seen, |lib[p]| - i
  {
    hide Flat, Inlined, EntryAt, LinkedAbove;
    FlatStep(lib, p, chain, i, seen);
    if i < |lib[p]| {
      InlinedIs(lib, p, chain, i, seen);
      EntryIs(lib, p, chain, i, seen);
      var e, inner, link := EntryAt(lib, p, chain, i, seen), Inlined(lib, p, chain, i, seen), lib[p][i].link;
      var rest := Flat(lib, p, chain, i + 1, inner.seen);
      if Followable(lib, link) && link.value !in seen {
        VisitedLinks(lib, link.value, chain + [link.value], 0, seen + {link.value});
      }
      VisitedLinks(lib, p, chain, i + 1, inner.seen);
      forall n | n in rest.seen - seen
        ensures Followable(lib, Some(n)) && LinkedAbove([e] + inner.out + rest.out, |inner.out| + 1 + |rest.out|, n)
      {
        LinkedJoin(e, inner.out, rest.out, n);
      }
    } else {
      assert forall n :: n !in Flat(lib, p, chain, i, seen).seen - seen;
    }
  }

  lemma LinkedJoin(e: Entry, inner: seq<Entry>, rest: seq<Entry>, l: Id)
    ensures LinkedAbove([e] + inner + rest, 1 + |inner| + |rest|, l) <==>
      e.linked == Some(l) || LinkedAbove(inner, |inner|, l) || LinkedAbove(rest, |rest|, l)
  {
    LinkedPart(e, inner, rest, |inner|, l);
    LinkedRest(e, inner, rest, |rest|, l);
  }

  lemma LinkedPart(e: Entry, inner: seq<Entry>, rest: seq<Entry>, j: nat, l: Id)
    requires j <= |inner|
    ensures LinkedAbove([e] + inner + rest, j + 1, l) <==> e.linked == Some(l) || LinkedAbove(inner, j, l)
  {
    var out := [e] + inner + rest;
    assert forall m :: 0 < m <= j ==> out[m] == inner[m - 1];
    assert out[0] == e;
    if b :| 0 <= b < j && inner[b].linked == Some(l) {
      assert out[b + 1].linked == Some(l);
    }
    if b :| 0 < b < j + 1 && out[b].linked == Some(l) {
      assert inner[b - 1].linked == Some(l);
    }
  }

  lemma LinkedRest(e: Entry, inner: seq<Entry>, rest: seq<Entry>, j: nat, l: Id)
    requires j <= |rest|
    ensures LinkedAbove([e] + inner + rest, j + 1 + |inner|, l) <==>
      e.linked == Some(l) || LinkedAbove(inner, |inner|, l) || LinkedAbove(rest, j, l)
  {
    var out, n := [e] + inner + rest, |inner| + 1;
    LinkedPart(e, inner, rest, |inner|, l);
    if b :| 0 <= b < j && rest[b].linked == Some(l) {
      assert out[b + n].linked == Some(l);
    }
    if b :| n <= b < j + n && out[b].linked == Some(l) {
      assert rest[b - n].linked == Some(l);
    }
    if b :| 0 <= b < n && out[b].linked == Some(l) {
      assert LinkedAbove(out, n, l) && b < j + n;
    }
  }

  /** Marked either way: the link goes to what was visited before, or to what an entry above already brought in. */
  lemma {:induction false} Marked(lib: Library, p: Id, chain: seq<Id>, i: nat, seen: set<Id>, j: nat)
    requires p in lib && i <= |lib[p]| && chain != [] && (forall c :: c in chain ==> c in seen)
    requires j < |Flat(lib, p, chain, i, seen).out|
    ensures var out := Flat(lib, p, chain, i, seen).out;
      && !(out[j].circular && out[j].inlinedAbove)
      && (out[j].circular || out[j].inlinedAbove <==>
            && out[j].linked.Some?
            && (out[j].linked.value in seen || (Followable(lib, out[j].linked) && LinkedAbove(out, j, out[j].linked.value))))
    decreases lib.Keys - seen, |lib[p]| - i
  {
    var e, inner := EntryAt(lib, p, chain, i, seen), Inlined(lib, p, chain, i, seen);
    var rest := Flat(lib, p, chain, i + 1, inner.seen);
    var out, n, link := [e] + inner.out + rest.out, |inner.out| + 1, lib[p][i].link;
    assert out == Flat(lib, p, chain, i, seen).out;
    if 0 < j < n {
      Marked(lib, link.value, chain + [link.value], 0, seen + {link.value}, j - 1);
      assert out[j] == inner.out[j - 1];
      hide Flat, Inlined, LinkedAbove;
      if out[j].linked.Some? {
        LinkedPart(e, inner.out, rest.out, j - 1, out[j].linked.value);
      }
    } else if j >= n {
      Marked(lib, p, chain, i + 1, inner.seen, j - n);
      if Followable(lib, link) && link.value !in seen {
        VisitedLinks(lib, link.value, chain + [link.value], 0, seen + {link.value});
      }
      assert out[j] == rest.out[j - n];
      hide Flat, Inlined;
      if out[j].linked.Some? {
        var l := out[j].linked.value;
        LinkedRest(e, inner.out, rest.out, j - n, l);
        if b :| 0 <= b < |inner.out| && inner.out[b].linked == Some(l) {
          assert inner.out[b] in inner.out;
        }
      }
    }
  }

  lemma {:induction false} Frameworks(lib: Library, p: Id, chain: seq<Id>, i: nat, seen: set<Id>)
    requires p in lib && i <= |lib[p]| && chain != []
    ensures forall e :: e in Flat(lib, p, chain, i, seen).out ==> (e.framework <==> e.linked.Some? && e.linked.value in FRAMEWORK)
    decreases lib.Keys - seen, |lib[p]| - i
  {
    if i < |lib[p]| {
      var inner, link := Inlined(lib, p, chain, i, seen), lib[p][i].link;
      if Followable(lib, link) && link.value !in seen {
        Frameworks(lib, link.value, chain + [link.value], 0, seen + {link.value});
      }
      Frameworks(lib, p, chain, i + 1, inner.seen);
    }
  }

  /** When the entries of a method are marked: circular, when the link goes to a procedure they stand inside of; inlined
      above, when it goes elsewhere and an entry above brought that in; framework, when it goes to the loop's own procedures. */
  lemma MarksExact(lib: Library, root: Id, j: nat)
    requires root in lib && j < |Method(lib, root)|
    ensures var out, link := Method(lib, root), Method(lib, root)[j].linked;
      && (out[j].circular <==> link.Some? && Inside(out, j, link.value))
      && (out[j].inlinedAbove <==> !out[j].circular && Followable(lib, link) && LinkedAbove(out, j, link.value))
      && (out[j].framework <==> link.Some? && link.value in FRAMEWORK)
  {
    var out := Method(lib, root);
    Circulars(lib, root, [root], 0, {root}, j);
    assert CircularAt(out, [root], j);
    Marked(lib, root, [root], 0, {root}, j);
    Frameworks(lib, root, [root], 0, {root});
    Depths(lib, root, [root], 0, {root});
    assert out[j] in out;
    hide Flat;
    if out[j].linked == Some(root) {
      WholeInside(out, j, 0);
    }
  }
}
