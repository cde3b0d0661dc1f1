/** Small facts about sequence concatenation and slicing that the solver
    does not always find on its own. */
module SeqLemmas {

  lemma EmptyLeft<T>(x: seq<T>)
    ensures [] + x == x
  {
  }

  lemma EmptyRight<T>(x: seq<T>)
    ensures x + [] == x
  {
  }

  lemma SeqAssoc<T>(x: seq<T>, y: seq<T>, z: seq<T>)
    ensures x + (y + z) == (x + y) + z
  {
  }

  lemma SeqChain<T>(d1: seq<T>, d2: seq<T>, c1: seq<T>, c2: seq<T>, cl: seq<T>, c0h: seq<T>)
    requires d1 + c1 == c0h
    requires d2 + c2 == c1 + cl
    ensures (d1 + d2) + c2 == c0h + cl
  {
    assert (d1 + d2) + c2 == d1 + (d2 + c2);
    assert d1 + (c1 + cl) == (d1 + c1) + cl;
  }

  lemma TailConcat<T>(x: seq<T>, y: seq<T>, a: nat)
    requires a <= |x|
    ensures x[a..] + y == (x + y)[a..]
  {
  }

  lemma TailTail<T>(s: seq<T>, a: nat, k: nat)
    requires a + k <= |s|
    ensures s[a..][k..] == s[a + k..]
  {
  }

  lemma SplitFirst<T>(h: seq<T>, ts: seq<T>)
    requires ts != []
    ensures h + [ts[0]] + ts[1..] == h + ts
  {
    assert ts == [ts[0]] + ts[1..];
  }
}
