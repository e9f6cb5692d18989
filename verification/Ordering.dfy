/** Text in the order the program sorts it: by code point, a prefix first. */
module Ordering {
  predicate Below(a: string, b: string)
    decreases |a|
  {
    a == "" || (b != "" && (a[0] < b[0] || (a[0] == b[0] && Below(a[1..], b[1..]))))
  }

  lemma {:induction false} BelowTotal(a: string, b: string)
    ensures Below(a, b) || Below(b, a)
    ensures Below(a, b) && Below(b, a) ==> a == b
    decreases |a|
  {
    if a != "" && b != "" {
      BelowTotal(a[1..], b[1..]);
      assert a[0] == b[0] && a[1..] == b[1..] ==> a == [b[0]] + b[1..];
    }
  }

  lemma {:induction false} BelowTransitive(a: string, b: string, c: string)
    requires Below(a, b) && Below(b, c)
    ensures Below(a, c)
    decreases |a|
  {
    if a != "" && a[0] == b[0] == c[0] {
      BelowTransitive(a[1..], b[1..], c[1..]);
    }
  }

  /** One is a prefix of the other, or the first character in which they differ decides. */
  ghost predicate ByFirstDifference(a: string, b: string) {
    a <= b || exists i :: 0 <= i < |a| && i < |b| && a[..i] == b[..i] && a[i] < b[i]
  }

  lemma DifferenceBehind(c: char, a: string, b: string)
    ensures ByFirstDifference([c] + a, [c] + b) <==> ByFirstDifference(a, b)
  {
    var x, y := [c] + a, [c] + b;
    assert x[1..] == a && y[1..] == b;
    if i :| 0 <= i < |a| && i < |b| && a[..i] == b[..i] && a[i] < b[i] {
      assert x[..i + 1] == [c] + a[..i] && y[..i + 1] == [c] + b[..i];
      assert x[i + 1] < y[i + 1];
    }
    if i :| 0 <= i < |x| && i < |y| && x[..i] == y[..i] && x[i] < y[i] {
      assert i > 0 && a[..i - 1] == x[..i][1..] && b[..i - 1] == y[..i][1..];
      assert a[i - 1] < b[i - 1];
    }
  }

  lemma DifferenceFirst(a: string, b: string)
    requires a != "" && b != "" && a[0] != b[0]
    ensures ByFirstDifference(a, b) <==> a[0] < b[0]
  {
    assert a[..0] == b[..0];
    assert forall i :: 0 < i < |a| && i < |b| && a[..i] == b[..i] ==> a[..i][0] == b[..i][0];
  }

  lemma {:induction false} BelowMeans(a: string, b: string)
    ensures Below(a, b) <==> ByFirstDifference(a, b)
    decreases |a|
  {
    if a != "" && b != "" {
      if a[0] == b[0] {
        BelowMeans(a[1..], b[1..]);
        DifferenceBehind(a[0], a[1..], b[1..]);
        assert a == [a[0]] + a[1..] && b == [a[0]] + b[1..];
      } else {
        DifferenceFirst(a, b);
      }
      hide ByFirstDifference;
    }
  }

  predicate Least(m: string, names: set<string>) {
    m in names && forall x :: x in names ==> Below(m, x)
  }

  lemma {:induction false} LeastExists(names: set<string>)
    requires names != {}
    ensures exists m :: Least(m, names)
  {
    var x :| x in names;
    var rest := names - {x};
    if rest == {} {
      BelowTotal(x, x);
      assert names == {x};
      assert Least(x, names);
    } else {
      LeastExists(rest);
      var m :| Least(m, rest);
      BelowTotal(m, x);
      BelowTotal(x, x);
      var least := if Below(m, x) then m else x;
      forall y | y in names
        ensures Below(least, y)
      {
        if y != x {
          if least == x {
            BelowTransitive(x, m, y);
          }
        }
      }
      assert Least(least, names);
    }
  }

  lemma LeastUnique(names: set<string>)
    ensures forall a, b :: Least(a, names) && Least(b, names) ==> a == b
  {
    forall a, b | Least(a, names) && Least(b, names)
      ensures a == b
    {
      BelowTotal(a, b);
    }
  }

  function First(names: set<string>): (m: string)
    requires names != {}
    ensures Least(m, names)
  {
    LeastExists(names);
    LeastUnique(names);
    var m :| m in names && Least(m, names);
    m
  }

  ghost predicate InOrder(s: seq<string>) {
    forall i, j :: 0 <= i < j < |s| ==> Below(s[i], s[j]) && s[i] != s[j]
  }

  /** Every name once, least first. */
  function Sorted(names: set<string>): (r: seq<string>)
    ensures forall x :: x in r <==> x in names
    ensures InOrder(r)
    decreases |names|
  {
    if names == {} then []
    else
      var first := First(names);
      [first] + Sorted(names - {first})
  }
}
