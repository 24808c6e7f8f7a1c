/** Facts about concatenation, one at a time: a proof that needs one of them names it, and keeps the
    solver from searching through all the others. */
module Sequences {
  lemma Assoc<T>(a: seq<T>, b: seq<T>, c: seq<T>)
    ensures (a + b) + c == a + (b + c)
  {
  }

  lemma TailOfSum<T>(a: seq<T>, b: seq<T>)
    requires a != []
    ensures a + b != [] && (a + b)[0] == a[0] && (a + b)[1..] == a[1..] + b
  {
  }

  lemma DropOfSum<T>(a: seq<T>, b: seq<T>, n: nat)
    requires n <= |a|
    ensures (a + b)[n..] == a[n..] + b
  {
  }

  lemma FrontOfSum<T>(a: seq<T>, c: T)
    ensures (a + [c])[..|a|] == a && (a + [c])[|a|] == c
  {
  }

  lemma EmptySum<T>(a: seq<T>)
    ensures a + [] == a && [] + a == a
  {
  }
}
