/** The ends of a sequence, and concatenation in another grouping. */
module Sequences {
  import opened Options

  ghost function Head<T>(s: seq<T>): Option<T> {
    if s == [] then None else Some(s[0])
  }

  ghost function Tail<T>(s: seq<T>): seq<T> {
    if s == [] then [] else s[1..]
  }

  lemma Flatten3<T>(a: seq<T>, b: seq<T>, c: seq<T>)
    ensures a + (b + c) == a + b + c
  {
  }

  lemma Flatten4<T>(a: seq<T>, b: seq<T>, c: seq<T>, d: seq<T>)
    ensures a + (b + c + d) == a + b + c + d
    ensures a + b + (c + d) == a + b + c + d
  {
  }

  lemma Flatten5<T>(a: seq<T>, b: seq<T>, c: seq<T>, d: seq<T>, e: seq<T>)
    ensures a + (b + c + d) + e == a + b + c + d + e
    ensures a + b + (c + d + e) == a + b + c + d + e
    ensures a + b + c + (d + e) == a + b + c + d + e
  {
  }

  lemma Popped<T>(s: seq<T>)
    requires s != []
    ensures s == [s[0]] + s[1..] && multiset(s) == multiset{s[0]} + multiset(s[1..])
  {
    assert s == [s[0]] + s[1..];
  }
}
