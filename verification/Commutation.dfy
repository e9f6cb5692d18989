/**
 Editing the view commutes with flattening. `Replace` is the one change all the walk's edits make to a document:
 step k of procedure s gives way to the steps `mid`. What the flattened method then shows is the old one with
 every entry remapped, as long as step k inlines nothing where it stands.
 */
module Commutation {
  import opened Outcomes
  import opened LinkGraph
  import opened Procedures
  import opened Flattening
  import opened MethodShape
  import opened Sequences

  /** k is 1-based. */
  datatype Change = Change(s: Id, k: nat, mid: seq<Step>)

  ghost predicate Applies(lib: Library, c: Change) {
    && c.s in lib && 1 <= c.k <= |lib[c.s]| && |c.mid| <= 2
    && (c.mid != [] ==> c.mid[0].link == lib[c.s][c.k - 1].link)
    && (|c.mid| == 2 ==> c.mid[0] == lib[c.s][c.k - 1] && c.mid[1].link == None)
  }

  function Replace(lib: Library, c: Change): Library
    requires c.s in lib && 1 <= c.k <= |lib[c.s]|
  {
    lib[c.s := lib[c.s][..c.k - 1] + c.mid + lib[c.s][c.k..]]
  }

  /** Where index i of a document is found afterwards. */
  function NewIndex(c: Change, p: Id, i: nat): nat {
    if p == c.s && i >= c.k && c.k >= 1 then i + |c.mid| - 1 else i
  }

  function MidKeys(c: Change): seq<Key> {
    seq(|c.mid|, m requires 0 <= m < |c.mid| => Key(c.s, c.k + m, c.mid[m].title))
  }

  function Remap(c: Change, key: Key): seq<Key> {
    if key.source != c.s || key.step < c.k || key.step == 0 then [key]
    else if key.step == c.k then MidKeys(c)
    else [key.(step := key.step + |c.mid| - 1)]
  }

  function RemapAll(c: Change, ks: seq<Key>): seq<Key> {
    if ks == [] then [] else Remap(c, ks[0]) + RemapAll(c, ks[1..])
  }

  lemma {:induction false} RemapConcat(c: Change, a: seq<Key>, b: seq<Key>)
    ensures RemapAll(c, a + b) == RemapAll(c, a) + RemapAll(c, b)
  {
    if a == [] {
      assert a + b == b;
    } else {
      assert (a + b)[1..] == a[1..] + b;
      RemapConcat(c, a[1..], b);
    }
  }

  /** Entries of other procedures stay as they are. */
  lemma {:induction false} RemapOthers(c: Change, ks: seq<Key>)
    requires forall i :: 0 <= i < |ks| ==> ks[i].source != c.s
    ensures RemapAll(c, ks) == ks
  {
    if ks != [] {
      RemapOthers(c, ks[1..]);
    }
  }

  /** Step k of s, wherever it stands here, is not followed by the first step of a procedure it inlines. */
  ghost predicate InlinesNothing(c: Change, out: seq<Entry>) {
    forall j, n :: 0 <= j < |out| && 0 <= n < |out| && n == j + 1 && out[j].source == c.s && out[j].step == c.k ==>
      out[n].step != 1
  }

  /** The visited sets of the two recursions: they differ at most in procedures without steps. */
  ghost predicate AlmostSame(lib: Library, fewer: set<Id>, seen: set<Id>) {
    fewer <= seen && forall q :: q in seen - fewer ==> q in lib && lib[q] == []
  }

  lemma KeysConcat(e: Entry, inner: seq<Entry>, rest: seq<Entry>)
    ensures Keys([e] + inner + rest) == [KeyOf(e)] + Keys(inner) + Keys(rest)
  {
  }

  lemma InlinesNothingParts(c: Change, e: Entry, inner: seq<Entry>, rest: seq<Entry>)
    requires InlinesNothing(c, [e] + inner + rest)
    ensures InlinesNothing(c, inner) && InlinesNothing(c, rest)
    ensures e.source == c.s && e.step == c.k && inner != [] ==> inner[0].step != 1
  {
    var out := [e] + inner + rest;
    forall j, n | 0 <= j < |inner| && 0 <= n < |inner| && n == j + 1 && inner[j].source == c.s && inner[j].step == c.k
      ensures inner[n].step != 1
    {
      assert out[j + 1] == inner[j] && out[n + 1] == inner[n];
    }
    var d := |inner| + 1;
    forall j, n | 0 <= j < |rest| && 0 <= n < |rest| && n == j + 1 && rest[j].source == c.s && rest[j].step == c.k
      ensures rest[n].step != 1
    {
      assert out[j + d] == rest[j] && out[n + d] == rest[n];
    }
    if inner != [] {
      assert out[0] == e && out[1] == inner[0];
    }
  }

  /** What one entry brings in below it, before and after. */
  lemma {:induction false} InlinedCommutes(lib: Library, c: Change, p: Id, chain: seq<Id>, i: nat, i': nat,
                                           seen: set<Id>, fewer: set<Id>)
    requires Applies(lib, c) && p in lib && i < |lib[p]| && chain != [] && p in fewer && AlmostSame(lib, fewer, seen)
    requires i' < |Replace(lib, c)[p]| && Replace(lib, c)[p][i'].link == lib[p][i].link
    requires |c.mid| == 1 || InlinesNothing(c, Inlined(lib, p, chain, i, seen).out)
    ensures var r, r' := Inlined(lib, p, chain, i, seen), Inlined(Replace(lib, c), p, chain, i', fewer);
      Keys(r'.out) == RemapAll(c, Keys(r.out)) && AlmostSame(lib, r'.seen, r.seen)
    decreases lib.Keys - seen, |lib[p]| - i, 0
  {
    var lib' := Replace(lib, c);
    var link := lib[p][i].link;
    assert lib'.Keys == lib.Keys;
    if Followable(lib, link) {
      var q := link.value;
      if q !in seen {
        assert NewIndex(c, q, 0) == 0;
        FlatCommutes(lib, c, q, chain + [q], 0, seen + {q}, fewer + {q});
      } else if q !in fewer {
        assert lib'[q] == [];
      }
    }
  }

  /** One step and everything after it, away from the replaced one. */
  lemma {:induction false} StepCommutes(lib: Library, c: Change, p: Id, chain: seq<Id>, i: nat, seen: set<Id>, fewer: set<Id>)
    requires Applies(lib, c) && p in lib && i < |lib[p]| && chain != [] && p in fewer && AlmostSame(lib, fewer, seen)
    requires p != c.s || i != c.k - 1
    requires |c.mid| == 1 || InlinesNothing(c, Flat(lib, p, chain, i, seen).out)
    ensures NewIndex(c, p, i) <= |Replace(lib, c)[p]|
    ensures var r, r' := Flat(lib, p, chain, i, seen), Flat(Replace(lib, c), p, chain, NewIndex(c, p, i), fewer);
      Keys(r'.out) == RemapAll(c, Keys(r.out)) && AlmostSame(lib, r'.seen, r.seen)
    decreases lib.Keys - seen, |lib[p]| - i, 1
  {
    hide AlmostSame, Followable, InlinesNothing, EntryAt, Inlined;
    var lib', i' := Replace(lib, c), NewIndex(c, p, i);
    SameStep(lib, c, p, i);
    var e, e' := EntryAt(lib, p, chain, i, seen), EntryAt(lib', p, chain, i', fewer);
    var inner, inner' := Inlined(lib, p, chain, i, seen), Inlined(lib', p, chain, i', fewer);
    var rest := Flat(lib, p, chain, i + 1, inner.seen);
    var rest' := Flat(lib', p, chain, i' + 1, inner'.seen);
    if |c.mid| != 1 {
      InlinesNothingParts(c, e, inner.out, rest.out);
    }
    InlinedCommutes(lib, c, p, chain, i, i', seen, fewer);
    FlatCommutes(lib, c, p, chain, i + 1, inner.seen, inner'.seen);
    KeysConcat(e, inner.out, rest.out);
    KeysConcat(e', inner'.out, rest'.out);
    OwnFirst(lib, p, chain, i, seen);
    OwnFirst(lib', p, chain, i', fewer);
    EntryKey(lib, p, chain, i, seen);
    EntryKey(lib', p, chain, i', fewer);
    RemapJoin(c, KeyOf(e), Keys(inner.out), Keys(rest.out));
  }

  lemma EntryKey(lib: Library, p: Id, chain: seq<Id>, i: nat, seen: set<Id>)
    requires p in lib && i < |lib[p]| && chain != []
    ensures KeyOf(EntryAt(lib, p, chain, i, seen)) == Key(p, i + 1, lib[p][i].title)
    ensures EntryAt(lib, p, chain, i, seen).source == p && EntryAt(lib, p, chain, i, seen).step == i + 1
  {
  }

  lemma RemapJoin(c: Change, key: Key, inner: seq<Key>, rest: seq<Key>)
    ensures RemapAll(c, [key] + inner + rest) == Remap(c, key) + RemapAll(c, inner) + RemapAll(c, rest)
  {
    RemapConcat(c, [key] + inner, rest);
    RemapConcat(c, [key], inner);
    assert RemapAll(c, [key]) == Remap(c, key) + RemapAll(c, []);
  }

  /** Away from the replaced step the documents have the same step, at the new index. */
  lemma SameStep(lib: Library, c: Change, p: Id, i: nat)
    requires Applies(lib, c) && p in lib && i < |lib[p]| && (p != c.s || i != c.k - 1)
    ensures NewIndex(c, p, i) < |Replace(lib, c)[p]| && Replace(lib, c)[p][NewIndex(c, p, i)] == lib[p][i]
    ensures NewIndex(c, p, i + 1) == NewIndex(c, p, i) + 1
    ensures Remap(c, Key(p, i + 1, lib[p][i].title)) == [Key(p, NewIndex(c, p, i) + 1, lib[p][i].title)]
  {
  }

  /** A step that brings nothing in adds at most a procedure without steps to the visited ones. */
  lemma NothingInlined(lib: Library, p: Id, chain: seq<Id>, i: nat, seen: set<Id>, fewer: set<Id>)
    requires p in lib && i < |lib[p]| && chain != [] && AlmostSame(lib, fewer, seen)
    requires var inner := Inlined(lib, p, chain, i, seen).out; inner != [] ==> inner[0].step != 1
    ensures Inlined(lib, p, chain, i, seen).out == []
    ensures AlmostSame(lib, fewer, Inlined(lib, p, chain, i, seen).seen)
  {
    var link := lib[p][i].link;
    if Followable(lib, link) && link.value !in seen {
      Depths(lib, link.value, chain + [link.value], 0, seen + {link.value});
    }
  }

  lemma RemapNothing(c: Change)
    ensures RemapAll(c, []) == []
  {
  }

  /** The replaced step and everything after it. */
  lemma {:induction false} MidCommutes(lib: Library, c: Change, chain: seq<Id>, seen: set<Id>, fewer: set<Id>)
    requires Applies(lib, c) && chain != [] && c.s in fewer && AlmostSame(lib, fewer, seen)
    requires |c.mid| == 1 || InlinesNothing(c, Flat(lib, c.s, chain, c.k - 1, seen).out)
    ensures c.k - 1 <= |Replace(lib, c)[c.s]|
    ensures var r, r' := Flat(lib, c.s, chain, c.k - 1, seen), Flat(Replace(lib, c), c.s, chain, c.k - 1, fewer);
      Keys(r'.out) == RemapAll(c, Keys(r.out)) && AlmostSame(lib, r'.seen, r.seen)
    decreases lib.Keys - seen, |lib[c.s]| - (c.k - 1), 1
  {
    hide AlmostSame, Followable, InlinesNothing, EntryAt, Inlined, Flat, RemapAll;
    var i := c.k - 1;
    var lib' := Replace(lib, c);
    FlatStep(lib, c.s, chain, i, seen);
    assert c.mid != [] ==> i < |lib'[c.s]|;
    RemapNothing(c);
    if c.mid != [] {
      FlatStep(lib', c.s, chain, i, fewer);
    }
    var e, inner := EntryAt(lib, c.s, chain, i, seen), Inlined(lib, c.s, chain, i, seen);
    var rest := Flat(lib, c.s, chain, i + 1, inner.seen);
    EntryKey(lib, c.s, chain, i, seen);
    KeysConcat(e, inner.out, rest.out);
    RemapJoin(c, KeyOf(e), Keys(inner.out), Keys(rest.out));
    if |c.mid| != 1 {
      InlinesNothingParts(c, e, inner.out, rest.out);
      NothingInlined(lib, c.s, chain, i, seen, fewer);
    }
    if |c.mid| == 0 {
      FlatCommutes(lib, c, c.s, chain, i + 1, inner.seen, fewer);
      assert MidKeys(c) == [];
    } else {
      var e', inner' := EntryAt(lib', c.s, chain, i, fewer), Inlined(lib', c.s, chain, i, fewer);
      InlinedCommutes(lib, c, c.s, chain, i, i, seen, fewer);
      FlatCommutes(lib, c, c.s, chain, i + 1, inner.seen, inner'.seen);
      var rest' := Flat(lib', c.s, chain, i + 1, inner'.seen);
      EntryKey(lib', c.s, chain, i, fewer);
      KeysConcat(e', inner'.out, rest'.out);
      if |c.mid| == 1 {
        assert MidKeys(c) == [KeyOf(e')];
      } else {
        NewStepAlone(lib, c, chain, inner'.seen);
        assert MidKeys(c) == [KeyOf(e'), Key(c.s, c.k + 1, c.mid[1].title)];
      }
    }
  }

  /** The added step links nothing, so it brings nothing in. */
  lemma NewStepAlone(lib: Library, c: Change, chain: seq<Id>, seen: set<Id>)
    requires Applies(lib, c) && chain != [] && |c.mid| == 2
    ensures c.k + 1 <= |Replace(lib, c)[c.s]|
    ensures var at, after := Flat(Replace(lib, c), c.s, chain, c.k, seen), Flat(Replace(lib, c), c.s, chain, c.k + 1, seen);
      at.seen == after.seen && Keys(at.out) == [Key(c.s, c.k + 1, c.mid[1].title)] + Keys(after.out)
  {
    var lib' := Replace(lib, c);
    assert lib'[c.s][c.k] == c.mid[1];
    var inner := Inlined(lib', c.s, chain, c.k, seen);
    assert inner == Flattened([], seen);
    KeysConcat(EntryAt(lib', c.s, chain, c.k, seen), [], Flat(lib', c.s, chain, c.k + 1, seen).out);
  }

  /** The whole list, before and after. */
  lemma {:induction false} FlatCommutes(lib: Library, c: Change, p: Id, chain: seq<Id>, i: nat, seen: set<Id>, fewer: set<Id>)
    requires Applies(lib, c) && p in lib && i <= |lib[p]| && chain != [] && p in fewer && AlmostSame(lib, fewer, seen)
    requires NewIndex(c, p, i) <= |Replace(lib, c)[p]|
    requires |c.mid| == 1 || InlinesNothing(c, Flat(lib, p, chain, i, seen).out)
    ensures var r, r' := Flat(lib, p, chain, i, seen), Flat(Replace(lib, c), p, chain, NewIndex(c, p, i), fewer);
      Keys(r'.out) == RemapAll(c, Keys(r.out)) && AlmostSame(lib, r'.seen, r.seen)
    decreases lib.Keys - seen, |lib[p]| - i, 2
  {
    if i == |lib[p]| {
      assert NewIndex(c, p, i) == |Replace(lib, c)[p]|;
    } else if p == c.s && i == c.k - 1 {
      MidCommutes(lib, c, chain, seen, fewer);
    } else {
      StepCommutes(lib, c, p, chain, i, seen, fewer);
    }
  }

  /** The flattened method of the changed library is the old one remapped. */
  lemma MethodCommutes(lib: Library, c: Change, root: Id)
    requires Applies(lib, c) && root in lib
    requires |c.mid| == 1 || InlinesNothing(c, Method(lib, root))
    ensures Keys(Method(Replace(lib, c), root)) == RemapAll(c, Keys(Method(lib, root)))
  {
    FlatCommutes(lib, c, root, [root], 0, {root}, {root});
  }

  /** Where the replaced step stands in a list that starts at it. */
  lemma StandsFirst(lib: Library, c: Change, chain: seq<Id>, seen: set<Id>, j: nat)
    requires Applies(lib, c) && chain != [] && c.s in seen
    requires var out := Flat(lib, c.s, chain, c.k - 1, seen).out;
      j < |out| && out[j].source == c.s && out[j].step == c.k
    ensures j == 0
  {
    var inner := Inlined(lib, c.s, chain, c.k - 1, seen);
    var rest := Flat(lib, c.s, chain, c.k, inner.seen);
    var out := [EntryAt(lib, c.s, chain, c.k - 1, seen)] + inner.out + rest.out;
    InlinedVisits(lib, c.s, chain, c.k - 1, seen);
    EntriesRead(lib, c.s, chain, c.k, inner.seen);
    assert forall n :: 0 < n <= |inner.out| ==> out[n] == inner.out[n - 1] && out[n] in inner.out;
    assert forall n :: |inner.out| < n < |out| ==> out[n] == rest.out[n - 1 - |inner.out|] && out[n] in rest.out;
  }

  /** What the replaced step inlines starts the same way before and after. */
  lemma SameBelow(lib: Library, c: Change, chain: seq<Id>, seen: set<Id>, fewer: set<Id>)
    requires Applies(lib, c) && chain != [] && c.s in fewer && AlmostSame(lib, fewer, seen) && |c.mid| == 2
    requires var out := Flat(lib, c.s, chain, c.k - 1, seen).out; |out| > 1 && out[1].step == 1
    ensures var out, out' := Flat(lib, c.s, chain, c.k - 1, seen).out, Flat(Replace(lib, c), c.s, chain, c.k - 1, fewer).out;
      |out'| > 1 && KeyOf(out'[1]) == KeyOf(out[1])
  {
    var lib' := Replace(lib, c);
    var inner, inner' := Inlined(lib, c.s, chain, c.k - 1, seen), Inlined(lib', c.s, chain, c.k - 1, fewer);
    var rest, rest' := Flat(lib, c.s, chain, c.k, inner.seen), Flat(lib', c.s, chain, c.k, inner'.seen);
    var out := [EntryAt(lib, c.s, chain, c.k - 1, seen)] + inner.out + rest.out;
    Depths(lib, c.s, chain, c.k, inner.seen);
    assert rest.out != [] ==> out[|inner.out| + 1] == rest.out[0];
    assert inner.out != [];
    var q := lib[c.s][c.k - 1].link.value;
    assert q != c.s && lib'[q] == lib[q];
    Depths(lib, q, chain + [q], 0, seen + {q});
    Depths(lib', q, chain + [q], 0, fewer + {q});
    assert out[1] == inner.out[0];
    assert ([EntryAt(lib', c.s, chain, c.k - 1, fewer)] + inner'.out + rest'.out)[1] == inner'.out[0];
  }

  ghost predicate Agree(out: seq<Entry>, out': seq<Entry>, j: nat, further: bool) {
    && j <= |out| && j <= |out'| && Keys(out')[..j] == Keys(out)[..j]
    && (further ==> j + 1 < |out'| && j + 1 < |out| && KeyOf(out'[j + 1]) == KeyOf(out[j + 1]))
  }

  lemma AgreeInner(e: Entry, e': Entry, inner: seq<Entry>, inner': seq<Entry>, rest: seq<Entry>, rest': seq<Entry>,
                   j: nat, further: bool)
    requires KeyOf(e) == KeyOf(e') && Agree(inner, inner', j, further)
    ensures Agree([e] + inner + rest, [e'] + inner' + rest', j + 1, further)
  {
    KeysConcat(e, inner, rest);
    KeysConcat(e', inner', rest');
    assert Keys([e] + inner + rest)[..j + 1] == [KeyOf(e)] + Keys(inner)[..j];
    assert Keys([e'] + inner' + rest')[..j + 1] == [KeyOf(e')] + Keys(inner')[..j];
  }

  lemma AgreeRest(e: Entry, e': Entry, inner: seq<Entry>, inner': seq<Entry>, rest: seq<Entry>, rest': seq<Entry>,
                  j: nat, further: bool)
    requires KeyOf(e) == KeyOf(e') && Keys(inner) == Keys(inner') && Agree(rest, rest', j, further)
    ensures Agree([e] + inner + rest, [e'] + inner' + rest', j + |inner| + 1, further)
  {
    var n := |inner| + 1;
    assert |inner'| == |inner|;
    KeysConcat(e, inner, rest);
    KeysConcat(e', inner', rest');
    assert Keys([e] + inner + rest)[..j + n] == [KeyOf(e)] + Keys(inner) + Keys(rest)[..j];
    assert Keys([e'] + inner' + rest')[..j + n] == [KeyOf(e')] + Keys(inner') + Keys(rest')[..j];
    if further {
      assert ([e] + inner + rest)[j + n + 1] == rest[j + 1];
      assert ([e'] + inner' + rest')[j + n + 1] == rest'[j + 1];
    }
  }

  /** The replaced step at position j leaves everything before it, and what it inlines, as it was. */
  lemma {:induction false} PrefixSame(lib: Library, c: Change, p: Id, chain: seq<Id>, i: nat,
                                      seen: set<Id>, fewer: set<Id>, j: nat, further: bool)
    requires Applies(lib, c) && p in lib && i <= |lib[p]| && chain != [] && p in fewer && AlmostSame(lib, fewer, seen)
    requires NewIndex(c, p, i) <= |Replace(lib, c)[p]| && |c.mid| != 1
    requires var out := Flat(lib, p, chain, i, seen).out;
      && j < |out| && out[j].source == c.s && out[j].step == c.k
      && (further ==> |c.mid| == 2 && j + 1 < |out| && out[j + 1].step == 1)
    ensures Agree(Flat(lib, p, chain, i, seen).out, Flat(Replace(lib, c), p, chain, NewIndex(c, p, i), fewer).out, j, further)
    decreases lib.Keys - seen, |lib[p]| - i, 2
  {
    if p == c.s && i == c.k - 1 {
      StandsFirst(lib, c, chain, seen, j);
      if further {
        SameBelow(lib, c, chain, seen, fewer);
      }
    } else {
      EntriesRead(lib, p, chain, i, seen);
      assert Flat(lib, p, chain, i, seen).out[j] in Flat(lib, p, chain, i, seen).out;
      PrefixStep(lib, c, p, chain, i, seen, fewer, j, further);
    }
  }

  /** Positions in the joined list, seen from its parts. */
  lemma JoinAt(e: Entry, inner: seq<Entry>, rest: seq<Entry>, j: nat, further: bool)
    requires rest != [] ==> rest[0].step != 1
    requires var out := [e] + inner + rest; 0 < j < |out| && (further ==> j + 1 < |out| && out[j + 1].step == 1)
    ensures var out, n := [e] + inner + rest, |inner| + 1;
      && (j < n ==> out[j] == inner[j - 1] && (further ==> j < |inner| && inner[j].step == 1))
      && (j >= n ==> out[j] == rest[j - n] && (further ==> j - n + 1 < |rest| && rest[j - n + 1].step == 1))
  {
    var out, n := [e] + inner + rest, |inner| + 1;
    assert j >= n ==> out[j] == rest[j - n];
    assert further && j >= n ==> out[j + 1] == rest[j - n + 1];
    assert j < n ==> out[j] == inner[j - 1];
    assert further && j < n - 1 ==> out[j + 1] == inner[j];
    assert rest != [] ==> out[n] == rest[0];
  }

  lemma RestStartsLater(lib: Library, p: Id, chain: seq<Id>, i: nat, seen: set<Id>)
    requires p in lib && i < |lib[p]| && chain != [] && p in seen
    ensures var rest := Flat(lib, p, chain, i + 1, seen).out; rest != [] ==> rest[0].step != 1
  {
    Depths(lib, p, chain, i + 1, seen);
  }

  lemma {:induction false} PrefixStep(lib: Library, c: Change, p: Id, chain: seq<Id>, i: nat,
                                      seen: set<Id>, fewer: set<Id>, j: nat, further: bool)
    requires Applies(lib, c) && p in lib && i < |lib[p]| && chain != [] && p in fewer && AlmostSame(lib, fewer, seen)
    requires p != c.s || i < c.k - 1
    requires NewIndex(c, p, i) == i <= |Replace(lib, c)[p]| && |c.mid| != 1
    requires p in seen
    requires var out := Flat(lib, p, chain, i, seen).out;
      && j < |out| && out[j].source == c.s && out[j].step == c.k
      && (further ==> |c.mid| == 2 && j + 1 < |out| && out[j + 1].step == 1)
    ensures Agree(Flat(lib, p, chain, i, seen).out, Flat(Replace(lib, c), p, chain, i, fewer).out, j, further)
    decreases lib.Keys - seen, |lib[p]| - i, 1
  {
    hide Agree, AlmostSame, InlinesNothing;
    EntryKey(lib, p, chain, i, seen);
    SameStep(lib, c, p, i);
    var e, inner := EntryAt(lib, p, chain, i, seen), Inlined(lib, p, chain, i, seen);
    var rest := Flat(lib, p, chain, i + 1, inner.seen);
    RestStartsLater(lib, p, chain, i, inner.seen);
    JoinAt(e, inner.out, rest.out, j, further);
    if j <= |inner.out| {
      PrefixInner(lib, c, p, chain, i, i, seen, fewer, j - 1, further);
      PrefixJoin(lib, c, p, chain, i, seen, fewer, j - 1, further);
    } else {
      PrefixRest(lib, c, p, chain, i, seen, fewer, j - 1 - |inner.out|, further);
      PrefixJoin(lib, c, p, chain, i, seen, fewer, j - 1 - |inner.out|, further);
    }
  }

  /** Agreement inside a part of the list is agreement of the list. */
  lemma PrefixJoin(lib: Library, c: Change, p: Id, chain: seq<Id>, i: nat, seen: set<Id>, fewer: set<Id>, j: nat, further: bool)
    requires Applies(lib, c) && p in lib && i < |lib[p]| && chain != []
    requires i < |Replace(lib, c)[p]| && Replace(lib, c)[p][i] == lib[p][i]
    ensures var inner, inner' := Inlined(lib, p, chain, i, seen), Inlined(Replace(lib, c), p, chain, i, fewer);
      var rest, rest' := Flat(lib, p, chain, i + 1, inner.seen), Flat(Replace(lib, c), p, chain, i + 1, inner'.seen);
      var out, out' := Flat(lib, p, chain, i, seen).out, Flat(Replace(lib, c), p, chain, i, fewer).out;
      && (Agree(inner.out, inner'.out, j, further) ==> Agree(out, out', j + 1, further))
      && (Agree(rest.out, rest'.out, j, further) && Keys(inner'.out) == Keys(inner.out) ==>
            Agree(out, out', j + 1 + |inner.out|, further))
  {
    hide Agree, EntryAt, Inlined, Followable, Keys;
    var lib' := Replace(lib, c);
    EntryKey(lib, p, chain, i, seen);
    EntryKey(lib', p, chain, i, fewer);
    var e, inner := EntryAt(lib, p, chain, i, seen), Inlined(lib, p, chain, i, seen);
    var e', inner' := EntryAt(lib', p, chain, i, fewer), Inlined(lib', p, chain, i, fewer);
    var rest, rest' := Flat(lib, p, chain, i + 1, inner.seen), Flat(lib', p, chain, i + 1, inner'.seen);
    if Agree(inner.out, inner'.out, j, further) {
      AgreeInner(e, e', inner.out, inner'.out, rest.out, rest'.out, j, further);
    }
    if Keys(inner'.out) == Keys(inner.out) && Agree(rest.out, rest'.out, j, further) {
      AgreeRest(e, e', inner.out, inner'.out, rest.out, rest'.out, j, further);
    }
  }

  lemma {:induction false} PrefixRest(lib: Library, c: Change, p: Id, chain: seq<Id>, i: nat,
                                      seen: set<Id>, fewer: set<Id>, j: nat, further: bool)
    requires Applies(lib, c) && p in lib && i < |lib[p]| && chain != [] && p in fewer && AlmostSame(lib, fewer, seen)
    requires p != c.s || i < c.k - 1
    requires NewIndex(c, p, i) == i <= |Replace(lib, c)[p]| && |c.mid| != 1
    requires p in seen
    requires var rest := Flat(lib, p, chain, i + 1, Inlined(lib, p, chain, i, seen).seen).out;
      && j < |rest| && rest[j].source == c.s && rest[j].step == c.k
      && (further ==> |c.mid| == 2 && j + 1 < |rest| && rest[j + 1].step == 1)
    ensures i < |Replace(lib, c)[p]|
    ensures var inner, inner' := Inlined(lib, p, chain, i, seen), Inlined(Replace(lib, c), p, chain, i, fewer);
      && Keys(inner'.out) == Keys(inner.out)
      && Agree(Flat(lib, p, chain, i + 1, inner.seen).out, Flat(Replace(lib, c), p, chain, i + 1, inner'.seen).out, j, further)
    decreases lib.Keys - seen, |lib[p]| - i, 0
  {
    hide Agree, AlmostSame, InlinesNothing, Inlined;
    SameStep(lib, c, p, i);
    NotInlinedHere(lib, c, p, chain, i, seen, j);
    var inner, inner' := Inlined(lib, p, chain, i, seen), Inlined(Replace(lib, c), p, chain, i, fewer);
    InlinedCommutes(lib, c, p, chain, i, i, seen, fewer);
    RemapOthers(c, Keys(inner.out));
    PrefixSame(lib, c, p, chain, i + 1, inner.seen, inner'.seen, j, further);
  }

  /** A procedure with a step later in the list is not the one inlined here. */
  lemma NotInlinedHere(lib: Library, c: Change, p: Id, chain: seq<Id>, i: nat, seen: set<Id>, j: nat)
    requires p in lib && i < |lib[p]| && chain != [] && p in seen
    requires var rest := Flat(lib, p, chain, i + 1, Inlined(lib, p, chain, i, seen).seen).out;
      j < |rest| && rest[j].source == c.s
    ensures forall n :: 0 <= n < |Inlined(lib, p, chain, i, seen).out| ==> Inlined(lib, p, chain, i, seen).out[n].source != c.s
    ensures InlinesNothing(c, Inlined(lib, p, chain, i, seen).out)
  {
    var inner := Inlined(lib, p, chain, i, seen);
    InlinedVisits(lib, p, chain, i, seen);
    Visits(lib, p, chain, i + 1, inner.seen);
    var rest := Flat(lib, p, chain, i + 1, inner.seen).out;
    assert rest[j] in rest;
    assert forall n :: 0 <= n < |inner.out| ==> inner.out[n] in inner.out;
  }

  lemma {:induction false} PrefixInner(lib: Library, c: Change, p: Id, chain: seq<Id>, i: nat, i': nat,
                                       seen: set<Id>, fewer: set<Id>, j: nat, further: bool)
    requires Applies(lib, c) && p in lib && i < |lib[p]| && chain != [] && p in fewer && AlmostSame(lib, fewer, seen)
    requires i' < |Replace(lib, c)[p]| && Replace(lib, c)[p][i'].link == lib[p][i].link && |c.mid| != 1
    requires var out := Inlined(lib, p, chain, i, seen).out;
      && j < |out| && out[j].source == c.s && out[j].step == c.k
      && (further ==> |c.mid| == 2 && j + 1 < |out| && out[j + 1].step == 1)
    ensures Agree(Inlined(lib, p, chain, i, seen).out, Inlined(Replace(lib, c), p, chain, i', fewer).out, j, further)
    decreases lib.Keys - seen, |lib[p]| - i, 0
  {
    var q := lib[p][i].link.value;
    assert Replace(lib, c).Keys == lib.Keys;
    assert NewIndex(c, q, 0) == 0;
    PrefixSame(lib, c, q, chain + [q], 0, seen + {q}, fewer + {q}, j, further);
  }

  /** Every step of s before its step k reads the same, and comes out of the remapping as it went in. */
  lemma {:induction false} RemapBefore(c: Change, ks: seq<Key>)
    requires forall i :: 0 <= i < |ks| ==> ks[i].source != c.s || ks[i].step < c.k
    ensures RemapAll(c, ks) == ks
  {
    if ks != [] {
      RemapBefore(c, ks[1..]);
    }
  }

  lemma RemapSingle(c: Change, key: Key)
    ensures RemapAll(c, [key]) == Remap(c, key)
  {
    assert [key][1..] == [];
    RemapNothing(c);
  }

  /** The remapped list around the replaced step at position j. */
  lemma RemapAround(lib: Library, c: Change, root: Id, j: nat)
    requires Applies(lib, c) && root in lib
    requires var out := Method(lib, root); j < |out| && out[j].source == c.s && out[j].step == c.k
    ensures var ks := Keys(Method(lib, root));
      RemapAll(c, ks) == ks[..j] + MidKeys(c) + RemapAll(c, ks[j + 1..])
  {
    var out := Method(lib, root);
    var ks := Keys(out);
    KeysBefore(lib, c, root, j);
    hide Method, Applies, RemapAll, Remap;
    RemapBefore(c, ks[..j]);
    assert ks == ks[..j] + ([ks[j]] + ks[j + 1..]);
    RemapConcat(c, ks[..j], [ks[j]] + ks[j + 1..]);
    RemapConcat(c, [ks[j]], ks[j + 1..]);
    RemapSingle(c, ks[j]);
    Regroup(ks[..j], MidKeys(c), RemapAll(c, ks[j + 1..]));
  }

  lemma KeysBefore(lib: Library, c: Change, root: Id, j: nat)
    requires Applies(lib, c) && root in lib
    requires var out := Method(lib, root); j < |out| && out[j].source == c.s && out[j].step == c.k
    ensures var ks := Keys(Method(lib, root));
      && Remap(c, ks[j]) == MidKeys(c)
      && forall i :: 0 <= i < j ==> ks[..j][i].source != c.s || ks[..j][i].step < c.k
  {
    MethodSteps(lib, root);
    hide Method;
  }


  /** An added step that the view puts above the inlined ones, the method puts below them. */
  lemma AddDiffers(lib: Library, c: Change, root: Id, j: nat)
    requires Applies(lib, c) && root in lib && |c.mid| == 2
    requires var out := Method(lib, root);
      j + 1 < |out| && out[j].source == c.s && out[j].step == c.k && out[j + 1].step == 1
    ensures Keys(Method(Replace(lib, c), root)) != RemapAll(c, Keys(Method(lib, root)))
  {
    PrefixSame(lib, c, root, [root], 0, {root}, {root}, j, true);
    RemapAround(lib, c, root, j);
    var ks := Keys(Method(lib, root));
    assert (ks[..j] + MidKeys(c) + RemapAll(c, ks[j + 1..]))[j + 1] == MidKeys(c)[1];
  }

  /** The first step of q cannot stand at position j of the changed method when j - 1 did not inline q before. */
  lemma NotMovedUp(lib: Library, c: Change, root: Id, j: nat)
    requires Applies(lib, c) && root in lib && c.mid == []
    requires var out, out' := Method(lib, root), Method(Replace(lib, c), root);
      && 0 < j && j + 1 < |out| && out[j].source == c.s && out[j].step == c.k && out[j + 1].step == 1
      && j < |out'| && KeyOf(out'[j - 1]) == KeyOf(out[j - 1])
    ensures KeyOf(Method(Replace(lib, c), root)[j]) != KeyOf(Method(lib, root)[j + 1])
  {
    var lib' := Replace(lib, c);
    var out, out', q := Method(lib, root), Method(lib', root), Method(lib, root)[j + 1].source;
    assert out[j - 1] in out && out[j] in out && out[j + 1] in out && out'[j - 1] in out';
    MethodSteps(lib, root);
    if KeyOf(out'[j]) == KeyOf(out[j + 1]) {
      Depths(lib', root, [root], 0, {root});
      EntriesRead(lib', root, [root], 0, {root});
      EntriesRead(lib, root, [root], 0, {root});
      assert Descends(out'[j - 1], out'[j]);
      assert out[j - 1].linked == Some(q);
      NeverStartsLater(lib, root, j);
    }
  }

  lemma BeginsOnce(lib: Library, root: Id, n: nat, q: Id)
    requires root in lib && Begins(Method(lib, root), n, q)
    ensures forall m :: n <= m < |Method(lib, root)| && Method(lib, root)[m].source == q ==> Method(lib, root)[m].step != 1
  {
    var out := Method(lib, root);
    var b :| 0 <= b < n && b < |out| && out[b].source == q && out[b].step == 1;
    MethodSteps(lib, root);
    forall m | n <= m < |out| && out[m].source == q ensures out[m].step != 1 {
      assert out[b].step < out[m].step;
    }
  }

  lemma SourceFollowable(lib: Library, root: Id, e: Entry)
    requires root in lib && e in Method(lib, root)
    ensures e.source in lib && lib[e.source] != [] && (e.source != root ==> Followable(lib, Some(e.source)))
  {
    EntriesRead(lib, root, [root], 0, {root});
    Visits(lib, root, [root], 0, {root});
    if e.source != root {
      var p := LeadsLast(Runs(lib), root, e.source);
    }
  }

  /** Right below the next step, a procedure the step before already links never starts. */
  lemma NeverStartsLater(lib: Library, root: Id, j: nat)
    requires root in lib
    requires var out := Method(lib, root); 0 < j && j + 1 < |out| && out[j - 1].linked == Some(out[j + 1].source)
    ensures Method(lib, root)[j + 1].step != 1
  {
    var out := Method(lib, root);
    var q := out[j + 1].source;
    assert out[j + 1] in out;
    SourceFollowable(lib, root, out[j + 1]);
    if q == root {
      Depths(lib, root, [root], 0, {root});
      BeginsHere(out, 0, root);
      BeginsOnce(lib, root, 1, root);
    } else {
      FirstLinkInlines(lib, root, [root], 0, {root}, j - 1, q);
      BeginsOnce(lib, root, j + 1, q);
    }
  }

  /** A removed step that inlined a procedure leaves it in the view where the method no longer has it. */
  lemma RemoveDiffers(lib: Library, c: Change, root: Id, j: nat)
    requires Applies(lib, c) && root in lib && c.mid == []
    requires var out := Method(lib, root);
      j + 1 < |out| && out[j].source == c.s && out[j].step == c.k && out[j + 1].step == 1
    ensures Keys(Method(Replace(lib, c), root)) != RemapAll(c, Keys(Method(lib, root)))
  {
    var out, out' := Method(lib, root), Method(Replace(lib, c), root);
    var ks := Keys(out);
    PrefixSame(lib, c, root, [root], 0, {root}, {root}, j, false);
    RemapAround(lib, c, root, j);
    MethodSteps(lib, root);
    assert out[j + 1].source != c.s;
    assert RemapAll(c, ks[j + 1..])[0] == ks[j + 1];
    assert RemapAll(c, ks)[j] == ks[j + 1];
    if |out'| > j {
      if j > 0 {
        assert Keys(out')[..j][j - 1] == Keys(out)[..j][j - 1];
        NotMovedUp(lib, c, root, j);
      } else {
        Depths(Replace(lib, c), root, [root], 0, {root});
        Depths(lib, root, [root], 0, {root});
      }
    }
  }

  /**
   The changed method is the old one remapped exactly when the change keeps one step for one, or its step
   inlines nothing where it stands.
   */
  lemma CommutesExactly(lib: Library, c: Change, root: Id)
    requires Applies(lib, c) && root in lib
    ensures Keys(Method(Replace(lib, c), root)) == RemapAll(c, Keys(Method(lib, root))) <==>
            |c.mid| == 1 || InlinesNothing(c, Method(lib, root))
  {
    if |c.mid| == 1 || InlinesNothing(c, Method(lib, root)) {
      MethodCommutes(lib, c, root);
    } else {
      var out := Method(lib, root);
      var j, n :| 0 <= j < |out| && 0 <= n < |out| && n == j + 1 && out[j].source == c.s && out[j].step == c.k
        && out[n].step == 1;
      if c.mid == [] {
        RemoveDiffers(lib, c, root, j);
      } else {
        AddDiffers(lib, c, root, j);
      }
    }
  }
}
