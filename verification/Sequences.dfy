/**
 Sequences: facts about putting them together, and about how often something is in one.
 */
module Sequences {
  type Byte = b: nat | b < 256 witness 0

  lemma Associate<T>(a: seq<T>, b: seq<T>, c: seq<T>)
    ensures (a + b) + c == a + (b + c)
  {
  }

  lemma SplitAt<T>(s: seq<T>, n: nat)
    requires n <= |s|
    ensures s == s[..n] + s[n..]
  {
  }

  lemma AddNothing<T>(s: seq<T>)
    ensures s + [] == s && [] + s == s
  {
  }

  lemma SplitFirst<T>(s: seq<T>)
    requires s != []
    ensures s == [s[0]] + s[1..]
  {
  }

  function TakeOut<T>(s: seq<T>, i: nat): seq<T>
    requires i < |s|
  {
    s[..i] + s[i + 1..]
  }

  function Count<T(==)>(s: seq<T>, x: T): nat {
    multiset(s)[x]
  }

  lemma CountAppend<T>(s: seq<T>, t: seq<T>, x: T)
    ensures Count(s + t, x) == Count(s, x) + Count(t, x)
  {
  }

  lemma CountTakeOut<T>(s: seq<T>, i: nat, x: T)
    requires i < |s|
    ensures Count(TakeOut(s, i), x) == Count(s, x) - (if s[i] == x then 1 else 0)
  {
    assert s == s[..i] + [s[i]] + s[i + 1..];
  }
}
