/** Cutting, joining and stripping text. */
module Texts {
  /** What Python's strip takes off. */
  predicate Space(c: char) {
    || c == ' ' || '\t' <= c <= '\r' || '\U{1C}' <= c <= '\U{1F}'
    || c in {'\U{85}', '\U{A0}', '\U{1680}', '\U{2028}', '\U{2029}', '\U{202F}', '\U{205F}', '\U{3000}'}
    || '\U{2000}' <= c <= '\U{200A}'
  }

  const LETTERS := "abcdefghijklmnopqrstuvwxyz"
  const CAPITALS := "ABCDEFGHIJKLMNOPQRSTUVWXYZ"
  const DIGITS := "0123456789"

  lemma LettersAre(c: char)
    ensures 'a' <= c <= 'z' <==> c in LETTERS
    ensures '0' <= c <= '9' <==> c in DIGITS
  {
    forall k | 0 <= k < 26 ensures LETTERS[k] as int == 'a' as int + k {
    }
    DigitsAre(c);
    if 'a' <= c <= 'z' {
      assert LETTERS[c as int - 'a' as int] == c;
    }
  }

  lemma CapitalsAre(c: char)
    ensures 'A' <= c <= 'Z' <==> c in CAPITALS
    ensures 'A' <= c <= 'Z' ==> CAPITALS[c as int - 'A' as int] == c
  {
    forall k | 0 <= k < 26 ensures CAPITALS[k] as int == 'A' as int + k {
    }
    hide CAPITALS;
  }

  lemma DigitsAre(c: char)
    ensures '0' <= c <= '9' <==> c in DIGITS
  {
    if '0' <= c <= '9' {
      assert DIGITS[c as int - '0' as int] == c;
    }
  }

  function StripLeft(s: string): string {
    if s != "" && Space(s[0]) then StripLeft(s[1..]) else s
  }

  function StripRight(s: string): string {
    if s != "" && Space(s[|s| - 1]) then StripRight(s[..|s| - 1]) else s
  }

  function Strip(s: string): string {
    StripRight(StripLeft(s))
  }

  predicate Blank(s: string) {
    Strip(s) == ""
  }

  /** The blanks by their code points. */
  lemma SpaceIs(c: char)
    ensures Space(c) <==>
      var n := c as int;
      || n in {0x20, 0x85, 0xA0, 0x1680, 0x2028, 0x2029, 0x202F, 0x205F, 0x3000}
      || 0x9 <= n <= 0xD || 0x1C <= n <= 0x1F || 0x2000 <= n <= 0x200A
  {
  }

  ghost predicate AllSpace(s: string) {
    forall c :: c in s ==> Space(c)
  }

  lemma {:induction false} StripLeftIs(s: string)
    ensures exists a :: AllSpace(a) && s == a + StripLeft(s)
    ensures StripLeft(s) != "" ==> !Space(StripLeft(s)[0])
  {
    hide Space;
    if s != "" && Space(s[0]) {
      StripLeftIs(s[1..]);
      var a :| AllSpace(a) && s[1..] == a + StripLeft(s[1..]);
      assert AllSpace([s[0]] + a) && s == [s[0]] + a + StripLeft(s);
    } else {
      assert AllSpace("") && s == "" + s;
    }
  }

  lemma {:induction false} StripRightIs(s: string)
    ensures exists b :: AllSpace(b) && s == StripRight(s) + b
    ensures StripRight(s) != "" ==> !Space(StripRight(s)[|StripRight(s)| - 1])
  {
    hide Space;
    if s != "" && Space(s[|s| - 1]) {
      var n := |s| - 1;
      StripRightIs(s[..n]);
      var b :| AllSpace(b) && s[..n] == StripRight(s[..n]) + b;
      assert s == s[..n] + [s[n]] && StripRight(s) == StripRight(s[..n]);
      assert AllSpace(b + [s[n]]) && s == StripRight(s) + (b + [s[n]]);
    } else {
      assert AllSpace("") && s == s + "";
    }
  }

  /** Stripping takes the blanks off both ends and nothing else. */
  lemma StripIs(s: string)
    ensures exists a, b :: AllSpace(a) && AllSpace(b) && s == a + Strip(s) + b
    ensures Strip(s) != "" ==> !Space(Strip(s)[0]) && !Space(Strip(s)[|Strip(s)| - 1])
    ensures Blank(s) <==> AllSpace(s)
  {
    hide Space;
    StripLeftIs(s);
    StripRightIs(StripLeft(s));
    var a :| AllSpace(a) && s == a + StripLeft(s);
    var b :| AllSpace(b) && StripLeft(s) == Strip(s) + b;
    assert s == a + Strip(s) + b;
    assert Strip(s) != "" ==> Strip(s)[0] == StripLeft(s)[0];
    if Strip(s) == "" {
      assert s == a + b;
    } else {
      assert s[|a|] == Strip(s)[0] && s[|a|] in s;
    }
  }

  predicate Plain(s: string, mark: char) {
    mark !in s
  }

  function Split(s: string, mark: char): (parts: seq<string>)
    ensures parts != []
  {
    if s == "" then [""]
    else
      var rest := Split(s[1..], mark);
      if s[0] == mark then [""] + rest else [[s[0]] + rest[0]] + rest[1..]
  }

  function Join(parts: seq<string>, mark: char): string {
    if parts == [] then ""
    else if |parts| == 1 then parts[0]
    else parts[0] + [mark] + Join(parts[1..], mark)
  }

  ghost predicate AllPlain(parts: seq<string>, mark: char) {
    forall i :: 0 <= i < |parts| ==> Plain(parts[i], mark)
  }

  lemma {:induction false} SplitPlain(s: string, mark: char)
    ensures AllPlain(Split(s, mark), mark)
  {
    if s != "" {
      SplitPlain(s[1..], mark);
    }
  }

  lemma {:induction false} JoinSplit(s: string, mark: char)
    ensures Join(Split(s, mark), mark) == s
  {
    if s != "" {
      var rest := Split(s[1..], mark);
      JoinSplit(s[1..], mark);
      if s[0] == mark {
        assert ([""] + rest)[1..] == rest;
      } else {
        assert s == [s[0]] + s[1..];
        assert ([[s[0]] + rest[0]] + rest[1..])[1..] == rest[1..];
      }
    }
  }

  /** Splitting what starts with a part free of the mark. */
  lemma {:induction false} SplitFirst(part: string, rest: string, mark: char)
    requires Plain(part, mark)
    ensures Split(part + [mark] + rest, mark) == [part] + Split(rest, mark)
    ensures Split(part, mark) == [part]
  {
    if part == "" {
      assert part + [mark] + rest == [mark] + rest;
    } else {
      assert part[0] in part && part == [part[0]] + part[1..];
      SplitFirst(part[1..], rest, mark);
      assert (part + [mark] + rest)[1..] == part[1..] + [mark] + rest;
    }
  }

  lemma {:induction false} SplitJoin(parts: seq<string>, mark: char)
    requires parts != [] && AllPlain(parts, mark)
    ensures Split(Join(parts, mark), mark) == parts
  {
    if |parts| == 1 {
      SplitFirst(parts[0], "", mark);
    } else {
      SplitJoin(parts[1..], mark);
      SplitFirst(parts[0], Join(parts[1..], mark), mark);
    }
  }

  lemma {:induction false} JoinAppend(a: seq<string>, b: seq<string>, mark: char)
    requires a != [] && b != []
    ensures Join(a + b, mark) == Join(a, mark) + [mark] + Join(b, mark)
  {
    if |a| == 1 {
      assert (a + b)[1..] == b;
    } else {
      JoinAppend(a[1..], b, mark);
      assert (a + b)[1..] == a[1..] + b;
      assert a[0] + [mark] + (Join(a[1..], mark) + [mark] + Join(b, mark)) == (a[0] + [mark] + Join(a[1..], mark)) + [mark] + Join(b, mark);
    }
  }

  /** A front free of the mark joins the first part of what follows it. */
  lemma {:induction false} SplitFront(front: string, rest: string, mark: char)
    requires Plain(front, mark)
    ensures Split(front + rest, mark) == [front + Split(rest, mark)[0]] + Split(rest, mark)[1..]
  {
    if front == "" {
      assert front + rest == rest && "" + Split(rest, mark)[0] == Split(rest, mark)[0];
    } else {
      assert front[0] in front && front == [front[0]] + front[1..];
      SplitFront(front[1..], rest, mark);
      assert (front + rest)[1..] == front[1..] + rest;
      assert [front[0]] + (front[1..] + Split(rest, mark)[0]) == front + Split(rest, mark)[0];
    }
  }

  lemma {:induction false} SplitConcat(a: string, b: string, mark: char)
    ensures Split(a + [mark] + b, mark) == Split(a, mark) + Split(b, mark)
  {
    if a == "" {
      assert a + [mark] + b == [mark] + b && ([mark] + b)[1..] == b;
    } else {
      assert (a + [mark] + b)[1..] == a[1..] + [mark] + b;
      SplitConcat(a[1..], b, mark);
    }
  }

  /** Whatever a part splits into is found in the split of the whole. */
  lemma {:induction false} SplitKeeps(parts: seq<string>, i: nat, piece: string, mark: char)
    requires i < |parts| && piece in Split(parts[i], mark)
    ensures piece in Split(Join(parts, mark), mark)
  {
    if |parts| > 1 {
      SplitConcat(parts[0], Join(parts[1..], mark), mark);
      if i > 0 {
        SplitKeeps(parts[1..], i - 1, piece, mark);
      }
    }
  }
}
