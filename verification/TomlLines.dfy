/**
 One line of the configuration file. The program writes `[name]` and `key = value` lines with an escape for quotes
 and backslashes only. Reading follows TOML v1.0.0 (sections "Comment", "Keys", "String", "Integer", "Boolean" and
 "Table") for bare and dotted keys, basic strings with one-letter escapes, decimal integers and booleans; any other
 line does not read.
 */
module TomlLines {
  import opened Outcomes
  import opened Decimals
  import opened Texts

  /** Nested stands for what a table holds under a dotted key: a table of its own, which is never written back. */
  datatype Value = Flag(flag: bool) | Number(number: int) | Text(text: string) | Nested

  datatype Line = Empty | Header(name: string) | Pair(path: seq<string>, value: Value)

  predicate Forbidden(c: char) {
    c != '\t' && (c < ' ' || c as int == 127)
  }

  /** Free of the control characters a basic string may not hold. */
  predicate Clean(s: string) {
    forall i :: 0 <= i < |s| ==> !Forbidden(s[i])
  }

  predicate Bare(c: char) {
    'a' <= c <= 'z' || 'A' <= c <= 'Z' || '0' <= c <= '9' || c == '_' || c == '-'
  }

  predicate BareKey(s: string) {
    s != "" && forall i :: 0 <= i < |s| ==> Bare(s[i])
  }

  /** Which characters stand in a bare key and which may not stand in a string, one by one. */
  lemma CharactersAre(c: char)
    ensures Bare(c) <==> c in LETTERS || c in CAPITALS || c in DIGITS || c == '_' || c == '-'
    ensures Forbidden(c) <==> (c as int < 0x20 && c as int != 0x9) || c as int == 0x7F
  {
    LettersAre(c);
    CapitalsAre(c);
    
  }

  // ---- writing

  function Replace(s: string, c: char, with: string): string {
    if s == "" then "" else (if s[0] == c then with else [s[0]]) + Replace(s[1..], c, with)
  }

  function Escape(s: string): string {
    Replace(Replace(s, '\\', "\\\\"), '"', "\\\"")
  }

  function WriteValue(v: Value): string
    requires v != Nested
  {
    match v
    case Flag(b) => if b then "true" else "false"
    case Number(n) => if n < 0 then "-" + Decimal(-n) else Decimal(n)
    case Text(s) => "\"" + Escape(s) + "\""
  }

  function WritePair(key: string, v: Value): string
    requires v != Nested
  {
    key + " = " + WriteValue(v)
  }

  function WriteHeader(name: string): string {
    "[" + name + "]"
  }

  // ---- reading

  function SkipBlanks(s: string): (r: string)
    ensures |r| <= |s|
  {
    if s != "" && (s[0] == ' ' || s[0] == '\t') then SkipBlanks(s[1..]) else s
  }

  function BareRun(s: string): (n: nat)
    ensures n <= |s|
  {
    if s != "" && Bare(s[0]) then 1 + BareRun(s[1..]) else 0
  }

  function DigitRun(s: string): (n: nat)
    ensures n <= |s| && AllDigits(s[..n])
  {
    if s != "" && IsDigit(s[0]) then 1 + DigitRun(s[1..]) else 0
  }

  function Unescaped(c: char): Option<char> {
    if c == '"' || c == '\\' then Some(c)
    else if c == 'n' then Some('\n')
    else if c == 't' then Some('\t')
    else if c == 'r' then Some('\r')
    else if c == 'b' then Some(8 as char)
    else if c == 'f' then Some(12 as char)
    else None
  }

  const ESCAPES: map<char, int> := map['"' := 0x22, '\\' := 0x5C, 'n' := 0xA, 't' := 0x9, 'r' := 0xD, 'b' := 0x8, 'f' := 0xC]

  /** The one-letter escapes. */
  lemma EscapesAre(c: char)
    ensures Unescaped(c).Some? <==> c in ESCAPES
    ensures Unescaped(c).Some? ==> Unescaped(c).value as int == ESCAPES[c]
  {
  }

  function After(c: char, more: Option<(string, string)>): Option<(string, string)> {
    if more.None? then None else Some(([c] + more.value.0, more.value.1))
  }

  /** What follows an opening quote: the text up to the closing one, and what is left. */
  function ReadText(s: string): Option<(string, string)>
    decreases |s|
  {
    if s == "" then None
    else if s[0] == '"' then Some(("", s[1..]))
    else if Forbidden(s[0]) then None
    else if s[0] != '\\' then After(s[0], ReadText(s[1..]))
    else if |s| >= 2 && Unescaped(s[1]).Some? then After(Unescaped(s[1]).value, ReadText(s[2..]))
    else None
  }

  function ReadNumber(s: string): Option<(Value, string)> {
    var minus := s != "" && s[0] == '-';
    var digits := if minus || (s != "" && s[0] == '+') then s[1..] else s;
    var n := DigitRun(digits);
    if n == 0 || (n > 1 && digits[0] == '0') then None
    else Some((Number(if minus then 0 - NumberOf(digits[..n]) else NumberOf(digits[..n])), digits[n..]))
  }

  function ReadValue(s: string): Option<(Value, string)> {
    if "\"\"\"" <= s then None
    else if "\"" <= s then
      var text := ReadText(s[1..]);
      if text.None? then None else Some((Text(text.value.0), text.value.1))
    else if "true" <= s then Some((Flag(true), s[4..]))
    else if "false" <= s then Some((Flag(false), s[5..]))
    else ReadNumber(s)
  }

  /** Bare keys joined by dots, and what is left after the blanks behind them. */
  function ReadKey(s: string): (r: Option<(seq<string>, string)>)
    ensures r.Some? ==> r.value.0 != [] && forall i :: 0 <= i < |r.value.0| ==> BareKey(r.value.0[i])
    decreases |s|
  {
    var n := BareRun(s);
    BareRunIsBare(s);
    var rest := SkipBlanks(s[n..]);
    if n == 0 then None
    else if rest != "" && rest[0] == '.' then
      var more := ReadKey(SkipBlanks(rest[1..]));
      if more.None? then None else Some(([s[..n]] + more.value.0, more.value.1))
    else Some(([s[..n]], rest))
  }

  lemma {:induction false} BareRunIsBare(s: string)
    ensures forall i :: 0 <= i < BareRun(s) ==> Bare(s[i])
  {
    if s != "" && Bare(s[0]) {
      BareRunIsBare(s[1..]);
      assert forall i :: 1 <= i < BareRun(s) ==> s[i] == s[1..][i - 1];
    }
  }

  predicate NothingMore(s: string) {
    var r := SkipBlanks(s);
    r == "" || (r[0] == '#' && Clean(r))
  }

  function ReadHeader(s: string): (line: Option<Line>)
    ensures line.Some? ==> line.value.Header? && BareKey(line.value.name)
  {
    var r := SkipBlanks(s);
    var n := BareRun(r);
    BareRunIsBare(r);
    var rest := SkipBlanks(r[n..]);
    if n > 0 && rest != "" && rest[0] == ']' && NothingMore(rest[1..]) then Some(Header(r[..n])) else None
  }

  function ReadPair(s: string): (r: Option<Line>)
    ensures r.Some? ==> r.value.Pair? && r.value.path != [] && BareKey(r.value.path[0])
  {
    var key := ReadKey(s);
    if key.None? || key.value.1 == "" || key.value.1[0] != '=' then None
    else
      var value := ReadValue(SkipBlanks(key.value.1[1..]));
      if value.None? || !NothingMore(value.value.1) then None else Some(Pair(key.value.0, value.value.0))
  }

  function ReadLine(s: string): (r: Option<Line>)
    ensures r.Some? && r.value.Pair? ==> r.value.path != [] && BareKey(r.value.path[0])
    ensures r.Some? && r.value.Header? ==> BareKey(r.value.name)
  {
    var r := SkipBlanks(s);
    if NothingMore(r) then Some(Empty)
    else if r[0] == '[' then ReadHeader(r[1..])
    else ReadPair(r)
  }

  // ---- a written line reads back

  function Escaped(c: char): string {
    if c == '\\' then "\\\\" else if c == '"' then "\\\"" else [c]
  }

  lemma ReplaceStep(first: char, s: string, c: char, with: string)
    ensures Replace([first] + s, c, with) == (if first == c then with else [first]) + Replace(s, c, with)
  {
    assert ([first] + s)[1..] == s;
  }

  lemma EscapeStep(c: char, s: string)
    ensures Escape([c] + s) == Escaped(c) + Escape(s)
  {
    hide Replace;
    var inner := Replace(s, '\\', "\\\\");
    ReplaceStep(c, s, '\\', "\\\\");
    if c == '\\' {
      assert "\\\\" + inner == "\\" + ("\\" + inner);
      ReplaceStep('\\', "\\" + inner, '"', "\\\"");
      ReplaceStep('\\', inner, '"', "\\\"");
    } else {
      ReplaceStep(c, inner, '"', "\\\"");
    }
  }

  /** Reading past one written character. */
  lemma ReadEscaped(c: char, more: string)
    requires !Forbidden(c)
    ensures ReadText(Escaped(c) + more) == After(c, ReadText(more))
  {
    var s := Escaped(c) + more;
    if c == '\\' || c == '"' {
      assert s[0] == '\\' && s[1] == c && s[2..] == more;
    } else {
      assert s[0] == c && s[1..] == more;
    }
  }

  /** Escaped text reads back up to where it stops being clean; there, or without a closing quote, nothing reads. */
  lemma {:induction false} EscapedReads(s: string, more: string)
    requires Clean(s)
    ensures more != "" && more[0] == '"' ==> ReadText(Escape(s) + more) == Some((s, more[1..]))
    ensures more == "" || Forbidden(more[0]) ==> ReadText(Escape(s) + more) == None
  {
    if s == "" {
      assert Escape(s) + more == more;
    } else {
      var rest := s[1..];
      assert s == [s[0]] + rest && !Forbidden(s[0]);
      assert forall i :: 0 <= i < |rest| ==> rest[i] == s[i + 1];
      EscapeStep(s[0], rest);
      EscapedReads(rest, more);
      assert Escape(s) + more == Escaped(s[0]) + (Escape(rest) + more);
      ReadEscaped(s[0], Escape(rest) + more);
    }
  }

  lemma {:induction false} EscapeConcat(a: string, b: string)
    ensures Escape(a + b) == Escape(a) + Escape(b)
  {
    if a == "" {
      assert a + b == b;
    } else {
      assert a == [a[0]] + a[1..] && a + b == [a[0]] + (a[1..] + b);
      EscapeConcat(a[1..], b);
      EscapeStep(a[0], a[1..]);
      EscapeStep(a[0], a[1..] + b);
    }
  }

  lemma {:induction false} DigitRunAll(s: string)
    requires AllDigits(s)
    ensures DigitRun(s) == |s|
  {
    if s != "" {
      DigitRunAll(s[1..]);
    }
  }

  lemma NumberReads(n: int)
    ensures ReadNumber(WriteValue(Number(n))) == Some((Number(n), ""))
  {
    var size := if n < 0 then -n else n;
    var digits := Decimal(size);
    DecimalReads(size);
    DigitRunAll(digits);
    assert digits[..|digits|] == digits && digits[|digits|..] == "";
    assert n < 0 ==> ("-" + digits)[1..] == digits;
    assert IsDigit(digits[0]);
  }

  lemma FlagReads(b: bool)
    ensures ReadValue(WriteValue(Flag(b))) == Some((Flag(b), ""))
  {
    var w := WriteValue(Flag(b));
    assert w[0] != '"';
    assert if b then w[4..] == "" else w[5..] == "" && w[0] == 'f';
  }

  lemma NumberValueReads(n: int)
    ensures ReadValue(WriteValue(Number(n))) == Some((Number(n), ""))
  {
    var w := WriteValue(Number(n));
    NumberReads(n);
    DecimalReads(if n < 0 then -n else n);
    assert w[0] == '-' || IsDigit(w[0]);
    hide ReadNumber, WriteValue;
  }

  lemma TextReads(s: string)
    requires Clean(s)
    ensures ReadValue(WriteValue(Text(s))) == Some((Text(s), ""))
  {
    var w := WriteValue(Text(s));
    EscapedReads(s, "\"");
    NeverTriple(s, "\"");
    hide ReadText, Escape, Clean;
    assert "\""[1..] == "" && w == "\"" + (Escape(s) + "\"");
    assert w[0] == '"' && w[1..] == Escape(s) + "\"";
    assert "\"" <= w;
  }

  lemma ValueReads(v: Value)
    requires v != Nested
    ensures (v.Text? ==> Clean(v.text)) ==> ReadValue(WriteValue(v)) == Some((v, ""))
  {
    hide ReadValue, WriteValue;
    match v
    case Flag(b) => FlagReads(b);
    case Number(n) => NumberValueReads(n);
    case Text(s) =>
      if Clean(s) {
        TextReads(s);
      }
  }

  /** Written text never opens three quotes. */
  lemma NeverTriple(s: string, more: string)
    requires |more| <= 1 || s != ""
    ensures !("\"\"\"" <= "\"" + Escape(s) + more)
  {
    var w := "\"" + Escape(s) + more;
    if s == "" {
      assert |w| <= 2;
    } else {
      assert s == [s[0]] + s[1..];
      EscapeStep(s[0], s[1..]);
      assert w[1] == Escaped(s[0])[0] != '"';
    }
  }

  lemma {:induction false} BareRunAll(key: string, more: string)
    requires forall i :: 0 <= i < |key| ==> Bare(key[i])
    requires more != "" && !Bare(more[0])
    ensures BareRun(key + more) == |key|
  {
    if key == "" {
      assert key + more == more;
    } else {
      BareRunAll(key[1..], more);
      assert (key + more)[1..] == key[1..] + more;
    }
  }

  lemma HeaderReads(name: string)
    requires BareKey(name)
    ensures ReadLine(WriteHeader(name)) == Some(Header(name))
  {
    var s := WriteHeader(name);
    assert s[1..] == name + "]";
    BareRunAll(name, "]");
    assert (name + "]")[|name|..] == "]" && (name + "]")[..|name|] == name;
    assert SkipBlanks(name + "]") == name + "]";
    assert "]"[1..] == "";
  }

  /** What is left of a pair's line once its key is read. */
  lemma KeyReads(key: string, more: string)
    requires BareKey(key)
    ensures ReadKey(key + " = " + more) == Some(([key], "= " + more))
  {
    var s := key + " = " + more;
    assert s == key + (" = " + more);
    BareRunAll(key, " = " + more);
    assert s[..|key|] == key && s[|key|..] == " = " + more;
    assert (" = " + more)[1..] == "= " + more && ("= " + more)[0] == '=';
    assert SkipBlanks("= " + more) == "= " + more;
  }

  lemma PairLine(key: string, more: string)
    requires BareKey(key) && more != "" && more[0] != ' ' && more[0] != '\t'
    ensures ReadLine(key + " = " + more) ==
      var value := ReadValue(more);
      if value.None? || !NothingMore(value.value.1) then None else Some(Pair([key], value.value.0))
  {
    var s := key + " = " + more;
    assert s[0] == key[0] && Bare(s[0]);
    assert SkipBlanks(s) == s && !NothingMore(s);
    hide ReadValue, NothingMore;
    KeyReads(key, more);
    assert ("= " + more)[1..] == " " + more && (" " + more)[1..] == more;
    assert SkipBlanks(" " + more) == more;
  }

  lemma PairReads(key: string, v: Value)
    requires BareKey(key) && v != Nested && (v.Text? ==> Clean(v.text))
    ensures ReadLine(WritePair(key, v)) == Some(Pair([key], v))
  {
    ValueReads(v);
    StartsPlain(v);
    PairLine(key, WriteValue(v));
  }

  lemma StartsPlain(v: Value)
    requires v != Nested
    ensures WriteValue(v) != "" && WriteValue(v)[0] != ' ' && WriteValue(v)[0] != '\t'
  {
    if v.Number? {
      DecimalReads(if v.number < 0 then -v.number else v.number);
      assert IsDigit(Decimal(if v.number < 0 then -v.number else v.number)[0]);
    }
  }

  // ---- a written line is one line, or does not read

  lemma {:induction false} CleanEscape(s: string)
    requires Clean(s)
    ensures Plain(Escape(s), '\n')
  {
    if s != "" {
      var rest := s[1..];
      assert s == [s[0]] + rest && !Forbidden(s[0]);
      assert forall i :: 0 <= i < |rest| ==> rest[i] == s[i + 1];
      CleanEscape(rest);
      EscapeStep(s[0], rest);
      assert Plain(Escaped(s[0]), '\n');
    }
  }

  lemma BareIsPlain(key: string)
    requires BareKey(key)
    ensures Plain(key, '\n')
  {
  }

  lemma {:induction false} DigitsPlain(n: nat)
    ensures Plain(Decimal(n), '\n')
  {
    DecimalReads(n);
  }

  lemma WrittenPlain(key: string, v: Value)
    requires BareKey(key) && v != Nested && (v.Text? ==> Clean(v.text))
    ensures Plain(WritePair(key, v), '\n') && Plain(WriteHeader(key), '\n')
  {
    BareIsPlain(key);
    match v
    case Flag(_) =>
    case Number(n) => DigitsPlain(if n < 0 then -n else n);
    case Text(s) => CleanEscape(s);
  }

  lemma FirstForbidden(s: string) returns (n: nat)
    requires !Clean(s)
    ensures n < |s| && Clean(s[..n]) && Forbidden(s[n])
  {
    n := 0;
    while !Forbidden(s[n])
      invariant n < |s| && Clean(s[..n])
      invariant exists i :: n <= i < |s| && Forbidden(s[i])
      decreases |s| - n
    {
      n := n + 1;
    }
  }

  /** The line of a text up to where the text stops being clean, and from there on. */
  lemma PairFront(key: string, s: string, n: nat)
    requires n < |s|
    ensures WritePair(key, Text(s)) == key + " = \"" + Escape(s[..n]) + (Escape(s[n..]) + "\"")
    ensures Forbidden(s[n]) ==> Escape(s[n..]) != "" && Escape(s[n..])[0] == s[n]
  {
    assert s == s[..n] + s[n..] && s[n..] == [s[n]] + s[n + 1..];
    EscapeConcat(s[..n], s[n..]);
    EscapeStep(s[n], s[n + 1..]);
    hide Escape;
    assert key + " = " + ("\"" + (Escape(s[..n]) + Escape(s[n..])) + "\"") == key + " = \"" + Escape(s[..n]) + (Escape(s[n..]) + "\"");
  }

  lemma SplitStart(s: string, mark: char)
    requires s != ""
    ensures var first := Split(s, mark)[0]; first == "" || first[0] == s[0]
  {
  }

  /** A text with a control character: its line ends there, or holds it; either way it does not read. */
  lemma UncleanPair(key: string, s: string)
    requires BareKey(key) && !Clean(s)
    ensures ReadLine(Split(WritePair(key, Text(s)), '\n')[0]) == None
  {
    hide *;
    var n := FirstForbidden(s);
    var front, tail := key + " = \"" + Escape(s[..n]), Escape(s[n..]) + "\"";
    PairFront(key, s, n);
    FrontPlain(key, s[..n]);
    SplitFront(front, tail, '\n');
    SplitStart(tail, '\n');
    var t := Split(tail, '\n')[0];
    UncleanLine(key, s[..n], t);
    assert front + t == key + " = " + ("\"" + Escape(s[..n]) + t);
  }

  lemma FrontPlain(key: string, s: string)
    requires BareKey(key) && Clean(s)
    ensures Plain(key + " = \"" + Escape(s), '\n')
  {
    BareIsPlain(key);
    CleanEscape(s);
  }

  lemma UncleanLine(key: string, s: string, t: string)
    requires BareKey(key) && Clean(s) && (t == "" || Forbidden(t[0]))
    ensures ReadLine(key + " = " + ("\"" + Escape(s) + t)) == None
  {
    var more := "\"" + Escape(s) + t;
    EscapedReads(s, t);
    assert more[1..] == Escape(s) + t;
    if s == "" {
      assert Escape(s) == "" && more == "\"" + t;
      assert t == "" || more[1] == t[0];
    } else {
      NeverTriple(s, t);
    }
    assert ReadValue(more) == None;
    PairLine(key, more);
  }
}
