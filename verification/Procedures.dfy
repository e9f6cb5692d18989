/**
 The procedure library: a document is a list of steps, and a step may link another procedure. Document
 checks follow the procedure engine: titles and texts are not blank, titles are unique, and a link is an id.
 */
module Procedures {
  import opened LinkGraph
  import opened Outcomes
  import Texts

  datatype Step = Step(title: string, text: string, link: Option<Id>)

  type Document = seq<Step>
  type Library = map<Id, Document>

  ghost function LinksIn(d: Document): set<Id> {
    set s | s in d && s.link.Some? :: s.link.value
  }

  /** The link graph: every id a procedure's steps name, existing or not. */
  ghost function Links(lib: Library): Graph {
    map id | id in lib :: LinksIn(lib[id])
  }

  ghost predicate NoDangling(lib: Library) {
    forall a, b :: Edge(Links(lib), a, b) ==> b in lib
  }

  /** What the link rule is for: every walk of every procedure can be opened and can close. */
  ghost predicate Sound(lib: Library) {
    Acyclic(Links(lib)) && NoDangling(lib)
  }

  /** One of the first n steps links l. */
  ghost predicate LinkedBefore(steps: Document, n: nat, l: Id)
    requires n <= |steps|
  {
    exists k :: 0 <= k < n && steps[k].link == Some(l)
  }

  predicate IdStart(c: char) {
    'a' <= c <= 'z' || '0' <= c <= '9'
  }

  predicate IdShape(id: string) {
    |id| > 0 && IdStart(id[0]) && forall i :: 0 < i < |id| ==> IdStart(id[i]) || id[i] == '_' || id[i] == '-'
  }

  predicate ValidStep(s: Step) {
    s.title != "" && s.text != "" && (s.link.Some? ==> IdShape(s.link.value.name))
  }

  predicate ValidDocument(d: Document) {
    && (forall i :: 0 <= i < |d| ==> ValidStep(d[i]))
    && (forall i, j :: 0 <= i < j < |d| ==> d[i].title != d[j].title)
  }

  /** The ids a link may have, character by character. */
  lemma IdShapeIs(id: string)
    ensures IdShape(id) <==>
      && id != "" && (id[0] in Texts.LETTERS || id[0] in Texts.DIGITS)
      && forall i :: 0 <= i < |id| ==> id[i] in Texts.LETTERS || id[i] in Texts.DIGITS || id[i] in {'_', '-'}
  {
    forall i | 0 <= i < |id| ensures IdStart(id[i]) <==> id[i] in Texts.LETTERS || id[i] in Texts.DIGITS {
      Texts.LettersAre(id[i]);
    }
    hide IdStart;
  }

  /** What the document check asks for: nothing blank, as many titles as steps, and links that are ids. */
  lemma ValidIs(d: Document)
    ensures ValidDocument(d) <==>
      && (forall s :: s in d ==> |s.title| > 0 && |s.text| > 0)
      && (forall s :: s in d && s.link.Some? ==> IdShape(s.link.value.name))
      && |TitlesOf(d)| == |d|
  {
    hide IdShape;
    TitlesCount(d);
    if ValidDocument(d) {
      forall s | s in d ensures ValidStep(s) {
        var i :| 0 <= i < |d| && d[i] == s;
      }
    }
    assert forall i :: 0 <= i < |d| ==> d[i] in d;
  }

  ghost function TitlesOf(d: Document): set<string> {
    set s | s in d :: s.title
  }

  ghost predicate TitlesApart(d: Document) {
    forall i, j :: 0 <= i < j < |d| ==> d[i].title != d[j].title
  }

  lemma TitlesLast(d: Document)
    requires d != []
    ensures var n := |d| - 1;
      && TitlesOf(d) == TitlesOf(d[..n]) + {d[n].title}
      && (TitlesApart(d) <==> TitlesApart(d[..n]) && d[n].title !in TitlesOf(d[..n]))
  {
    var n := |d| - 1;
    assert d == d[..n] + [d[n]];
    assert forall i :: 0 <= i < n ==> d[..n][i] == d[i] && d[i] in d[..n];
    if d[n].title in TitlesOf(d[..n]) {
      var s :| s in d[..n] && s.title == d[n].title;
      var i :| 0 <= i < n && d[..n][i] == s;
    }
  }

  lemma {:induction false} TitlesCount(d: Document)
    ensures |TitlesOf(d)| <= |d|
    ensures |TitlesOf(d)| == |d| <==> TitlesApart(d)
  {
    if d != [] {
      TitlesCount(d[..|d| - 1]);
      TitlesLast(d);
      hide TitlesOf, TitlesApart;
    }
  }

  /** The first step with this title; |d| when there is none. */
  function FindTitle(d: Document, title: string): (i: nat)
    ensures i <= |d|
    ensures i < |d| ==> d[i].title == title
    ensures forall k :: 0 <= k < i ==> d[k].title != title
  {
    if d == [] || d[0].title == title then 0 else
    var i := FindTitle(d[1..], title);
    assert forall k :: 0 < k <= i ==> d[k] == d[1..][k - 1] || k == i;
    1 + i
  }

  lemma LinkEdge(lib: Library, a: Id, b: Id)
    ensures Edge(Links(lib), a, b) <==> a in lib && exists s :: s in lib[a] && s.link == Some(b)
  {
  }
}
