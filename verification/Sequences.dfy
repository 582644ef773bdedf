/** Facts about sequences of any kind, kept apart from what their elements mean. */
module Sequences {

  lemma SplitAt<T>(q: seq<T>, n: nat)
    requires n <= |q|
    ensures q == q[..n] + q[n..]
  {
  }

  lemma Joins<T>(a: seq<T>, b: seq<T>)
    ensures (a + b)[..|a|] == a && (a + b)[|a|..] == b
    ensures forall k :: 0 <= k <= |b| ==> (a + b)[|a| + k..] == b[k..]
  {
  }

  /** Taking nothing, everything, and all but the element just added. */
  lemma Takes<T>(a: seq<T>, b: seq<T>, x: T)
    ensures a + b[..0] == a && b[..|b|] == b && (a + [x])[..|a|] == a
  {
  }

  lemma TakeTwice<T>(q: seq<T>, n: nat)
    requires n < |q|
    ensures q[..n + 1][..n] == q[..n] && q[..n + 1][n] == q[n]
  {
  }

  lemma LastAdded<T>(q: seq<T>, x: T)
    ensures |q + [x]| == |q| + 1 && (q + [x])[|q|] == x
  {
  }

  lemma ConsAppend<T>(a: seq<T>, b: seq<T>)
    requires a != []
    ensures a + b == [a[0]] + (a[1..] + b)
  {
  }

  lemma StaysInTail<T>(q: seq<T>, x: T)
    requires q != [] && x in q && x != q[0]
    ensures x in q[1..]
  {
    assert q == [q[0]] + q[1..];
  }

  ghost predicate Distinct<T>(q: seq<T>) {
    forall i, j :: 0 <= i < j < |q| ==> q[i] != q[j]
  }

  lemma LastIsNew<T>(q: seq<T>)
    requires q != [] && Distinct(q)
    ensures Distinct(q[..|q| - 1]) && q[|q| - 1] !in q[..|q| - 1]
  {
    assert forall i :: 0 <= i < |q| - 1 ==> q[..|q| - 1][i] == q[i];
  }

  lemma Inserted<T>(q: seq<T>, i: nat, x: T)
    requires i <= |q|
    ensures multiset(q[..i] + [x] + q[i..]) == multiset(q) + multiset{x}
  {
    assert q == q[..i] + q[i..];
  }

  lemma OneMoreTaken<T>(q: seq<T>, n: nat)
    requires n < |q|
    ensures multiset(q[..n + 1]) == multiset(q[..n]) + multiset{q[n]}
  {
    assert q[..n + 1] == q[..n] + [q[n]];
  }
}
