/**
 Byte-wise order of strings and the ascending listing of a finite set of them,
 as Go's `sort.Strings` and `sort.SearchStrings` see it.
 */
module Order {

  /** Strict lexicographic order. */
  predicate Lt(a: string, b: string) {
    if b == "" then false
    else if a == "" then true
    else a[0] < b[0] || (a[0] == b[0] && Lt(a[1..], b[1..]))
  }

  /** The strings agree up to this place, and there `a` has the smaller character. */
  predicate SmallerAt(a: string, b: string, i: nat) {
    i < |a| && i < |b| && a[..i] == b[..i] && a[i] < b[i]
  }

  lemma SameStart(a: string, b: string, i: nat)
    requires i > 0 && SmallerAt(a, b, i)
    ensures a[0] == b[0]
  {
    assert a[..i][0] == b[..i][0];
  }

  lemma SmallerAfterFirst(a: string, b: string, i: nat)
    requires a != "" && b != "" && a[0] == b[0]
    ensures SmallerAt(a, b, i + 1) <==> SmallerAt(a[1..], b[1..], i)
  {
    if i + 1 < |a| && i + 1 < |b| {
      assert a[..i + 1] == [a[0]] + a[1..][..i] && b[..i + 1] == [b[0]] + b[1..][..i];
      assert a[1..][..i] == a[..i + 1][1..] && b[1..][..i] == b[..i + 1][1..];
    }
  }

  /** Ascending byte order: the first difference decides, and a proper beginning comes before the whole. */
  lemma {:induction false} LtIffFirstDifference(a: string, b: string)
    ensures Lt(a, b) <==> a < b || exists i: nat :: SmallerAt(a, b, i)
  {
    if a != "" && b != "" {
      assert a == [a[0]] + a[1..] && b == [b[0]] + b[1..];
      assert SmallerAt(a, b, 0) <==> a[0] < b[0];
      forall i: nat | i > 0 && SmallerAt(a, b, i) ensures a[0] == b[0] { SameStart(a, b, i); }
      if a[0] == b[0] {
        LtIffFirstDifference(a[1..], b[1..]);
        assert a < b <==> a[1..] < b[1..];
        forall i: nat ensures SmallerAt(a, b, i + 1) <==> SmallerAt(a[1..], b[1..], i) { SmallerAfterFirst(a, b, i); }
        if i: nat :| SmallerAt(a[1..], b[1..], i) { assert SmallerAt(a, b, i + 1); }
        if i: nat :| SmallerAt(a, b, i) { assert i > 0 && SmallerAt(a[1..], b[1..], i - 1); }
      }
    }
  }

  lemma {:induction false} LtIrreflexive(a: string)
    ensures !Lt(a, a)
  {
    if a != "" { LtIrreflexive(a[1..]); }
  }

  lemma {:induction false} LtTransitive(a: string, b: string, c: string)
    requires Lt(a, b) && Lt(b, c)
    ensures Lt(a, c)
  {
    if a != "" && a[0] == b[0] == c[0] { LtTransitive(a[1..], b[1..], c[1..]); }
  }

  lemma {:induction false} LtTotal(a: string, b: string)
    ensures a == b || Lt(a, b) || Lt(b, a)
  {
    if a != "" && b != "" && a[0] == b[0] {
      LtTotal(a[1..], b[1..]);
      assert a == [a[0]] + a[1..] && b == [b[0]] + b[1..];
    }
  }

  lemma LtAsymmetric(a: string, b: string)
    requires Lt(a, b)
    ensures a != b && !Lt(b, a)
  {
    LtIrreflexive(a);
    if Lt(b, a) { LtTransitive(a, b, a); }
  }

  lemma {:induction false} LtSamePrefix(p: string, a: string, b: string)
    ensures Lt(p + a, p + b) <==> Lt(a, b)
  {
    if p == "" {
      assert p + a == a && p + b == b;
    } else {
      LtSamePrefix(p[1..], a, b);
      assert (p + a)[1..] == p[1..] + a && (p + b)[1..] == p[1..] + b;
    }
  }

  ghost predicate Increasing(ks: seq<string>) {
    forall i, j :: 0 <= i < j < |ks| ==> Lt(ks[i], ks[j])
  }

  ghost function Elems(ks: seq<string>): set<string> {
    set k | k in ks
  }

  ghost predicate IsLeast(m: string, s: set<string>) {
    m in s && forall x :: x in s && x != m ==> Lt(m, x)
  }

  lemma {:induction false} LeastExists(s: set<string>) returns (m: string)
    requires s != {}
    ensures IsLeast(m, s)
  {
    m :| m in s;
    if s != {m} {
      var n := LeastExists(s - {m});
      LtTotal(m, n);
      if Lt(n, m) {
        m := n;
      } else {
        forall x | x in s && x != m ensures Lt(m, x) {
          if x != n { LtTransitive(m, n, x); }
        }
      }
    }
  }

  ghost function Least(s: set<string>): (m: string)
    requires s != {}
    ensures IsLeast(m, s)
  {
    assert exists m :: IsLeast(m, s) by { var m := LeastExists(s); }
    var m :| IsLeast(m, s);
    m
  }

  /** The elements of `s` in ascending order. */
  ghost function Sorted(s: set<string>): (ks: seq<string>)
    ensures forall k :: k in ks <==> k in s
    ensures |ks| == |s|
    ensures Increasing(ks)
  {
    if s == {} then []
    else
      var m := Least(s);
      [m] + Sorted(s - {m})
  }

  /** An ascending sequence is determined by its elements. */
  lemma {:induction false} SortedUnique(ks: seq<string>, s: set<string>)
    requires Increasing(ks)
    requires forall k :: k in ks <==> k in s
    ensures ks == Sorted(s)
  {
    if ks == [] {
      assert s == {};
    } else {
      assert ks[0] in ks;
      var m := Least(s);
      assert m in ks;
      if ks[0] != m {
        var i :| 0 <= i < |ks| && ks[i] == m;
        LtAsymmetric(m, ks[0]);
      }
      forall k ensures k in ks[1..] <==> k in s - {m} {
        if k in ks[1..] {
          var j :| 1 <= j < |ks| && ks[j] == k;
          LtAsymmetric(ks[0], ks[j]);
        }
      }
      SortedUnique(ks[1..], s - {m});
      assert ks == [m] + ks[1..];
    }
  }

  /** An ascending sequence has no repeated element. */
  lemma IncreasingDistinct(ks: seq<string>, i: int, j: int)
    requires Increasing(ks) && 0 <= i < |ks| && 0 <= j < |ks| && ks[i] == ks[j]
    ensures i == j
  {
    if i < j { LtAsymmetric(ks[i], ks[j]); }
    if j < i { LtAsymmetric(ks[j], ks[i]); }
  }

  /** The keys of `s` strictly after `token`; the empty token stands for the beginning. */
  ghost function Beyond(s: set<string>, token: string): set<string> {
    set k | k in s && (token == "" || Lt(token, k))
  }

  lemma {:induction false} LaterIffGreater(ks: seq<string>, i: nat, k: string)
    requires Increasing(ks) && i < |ks|
    ensures k in ks[i + 1..] <==> k in ks && Lt(ks[i], k)
  {
    if k in ks[i + 1..] {
      var j :| i < j < |ks| && ks[j] == k;
    }
    if k in ks && Lt(ks[i], k) {
      var j :| 0 <= j < |ks| && ks[j] == k;
      LtAsymmetric(ks[i], k);
      if j < i { LtAsymmetric(k, ks[i]); }
      assert ks[i + 1..][j - i - 1] == k;
    }
  }

  /** Cutting an ascending listing after position `i` leaves the listing of what lies beyond its i-th key. */
  lemma SortedBeyond(s: set<string>, i: nat)
    requires "" !in s
    requires i < |Sorted(s)|
    ensures Sorted(Beyond(s, Sorted(s)[i])) == Sorted(s)[i + 1..]
  {
    var ks := Sorted(s);
    assert ks[i] in s;
    forall k ensures k in ks[i + 1..] <==> k in Beyond(s, ks[i]) { LaterIffGreater(ks, i, k); }
    SortedUnique(ks[i + 1..], Beyond(s, ks[i]));
  }

  /** Skipping ahead twice is skipping ahead to the later place. */
  lemma BeyondTwice(s: set<string>, a: string, b: string)
    requires a == "" || Lt(a, b)
    requires b != ""
    ensures Beyond(Beyond(s, a), b) == Beyond(s, b)
  {
    forall k | k in Beyond(s, b) ensures k in Beyond(s, a) {
      if a != "" { LtTransitive(a, b, k); }
    }
  }

  /** `sort.SearchStrings`: the least position whose key is not below `token`. */
  method SearchStrings(ks: seq<string>, token: string) returns (i: nat)
    requires Increasing(ks)
    ensures i <= |ks|
    ensures forall j :: 0 <= j < i ==> Lt(ks[j], token)
    ensures forall j :: i <= j < |ks| ==> !Lt(ks[j], token)
  {
    i := 0;
    var n := |ks|;
    while i < n
      invariant i <= n <= |ks|
      invariant forall j :: 0 <= j < i ==> Lt(ks[j], token)
      invariant forall j :: n <= j < |ks| ==> !Lt(ks[j], token)
    {
      var h := (i + n) / 2;
      if Lt(ks[h], token) {
        forall j | 0 <= j < h ensures Lt(ks[j], token) { LtTransitive(ks[j], ks[h], token); }
        i := h + 1;
      } else {
        forall j | h < j < |ks| ensures !Lt(ks[j], token) {
          if Lt(ks[j], token) { LtTransitive(ks[h], ks[j], token); }
        }
        n := h;
      }
    }
  }

  /** `sort.Strings` on keys that are pairwise different. */
  method SortStrings(ks: seq<string>) returns (sorted: seq<string>)
    requires forall i, j :: 0 <= i < j < |ks| ==> ks[i] != ks[j]
    ensures sorted == Sorted(Elems(ks))
  {
    sorted := [];
    for n := 0 to |ks|
      invariant Increasing(sorted)
      invariant forall k :: k in sorted <==> k in ks[..n]
    {
      var k := ks[n];
      var i := SearchStrings(sorted, k);
      forall j | i <= j < |sorted| ensures Lt(k, sorted[j]) {
        assert sorted[j] in sorted;
        LtTotal(k, sorted[j]);
      }
      sorted := sorted[..i] + [k] + sorted[i..];
      assert ks[..n + 1] == ks[..n] + [k];
    }
    assert ks[..|ks|] == ks;
    SortedUnique(sorted, Elems(ks));
  }
}
