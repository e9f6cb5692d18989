/** Putting joined sequences in other brackets. */
module Sequences {
  lemma Regroup<T>(a: seq<T>, b: seq<T>, c: seq<T>)
    ensures a + b + c == a + (b + c)
  {
  }

  lemma Regroup4<T>(a: seq<T>, b: seq<T>, c: seq<T>, d: seq<T>)
    ensures a + b + c + d == a + (b + (c + d)) == a + (b + c + d)
  {
  }

  lemma DropEmpty<T>(a: seq<T>, b: seq<T>)
    ensures [] + a + [] + b == a + b
  {
    assert [] + a + [] == a;
  }
}
