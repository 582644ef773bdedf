/** String operations of Go's `strings` package, as functions on sequences of characters. */
module Text {

  predicate IsUpper(c: char) {
    'A' <= c <= 'Z'
  }

  predicate IsLower(c: char) {
    'a' <= c <= 'z'
  }

  predicate NoUpper(s: string) {
    forall i :: 0 <= i < |s| ==> !IsUpper(s[i])
  }

  predicate HasPrefix(s: string, prefix: string) {
    |prefix| <= |s| && s[..|prefix|] == prefix
  }

  predicate HasSuffix(s: string, suffix: string) {
    |suffix| <= |s| && s[|s| - |suffix|..] == suffix
  }

  lemma PrefixByChars(s: string, prefix: string)
    ensures HasPrefix(s, prefix) <==> |prefix| <= |s| && forall i :: 0 <= i < |prefix| ==> s[i] == prefix[i]
  {
    assert |prefix| <= |s| ==> forall i :: 0 <= i < |prefix| ==> s[i] == s[..|prefix|][i];
  }

  lemma LastOfSuffix(s: string, suffix: string)
    requires |suffix| > 0
    ensures HasSuffix(s, suffix) ==> s[|s| - 1] == suffix[|suffix| - 1]
  {
    assert HasSuffix(s, suffix) ==> s[|s| - |suffix|..][|suffix| - 1] == suffix[|suffix| - 1];
  }

  function TrimPrefix(s: string, prefix: string): string {
    if HasPrefix(s, prefix) then s[|prefix|..] else s
  }

  function TrimSuffix(s: string, suffix: string): string {
    if HasSuffix(s, suffix) then s[..|s| - |suffix|] else s
  }

  lemma SuffixSplits(s: string, suffix: string)
    requires HasSuffix(s, suffix)
    ensures s == TrimSuffix(s, suffix) + suffix
  {
  }

  /** `sub` occurs in `s` starting at position `i`. */
  predicate OccursAt(s: string, sub: string, i: int) {
    0 <= i && i + |sub| <= |s| && s[i..i + |sub|] == sub
  }

  lemma OccurrenceChar(s: string, sub: string, i: int, k: nat)
    requires k < |sub|
    ensures OccursAt(s, sub, i) ==> i + k < |s| && s[i + k] == sub[k]
  {
    if OccursAt(s, sub, i) { assert s[i..i + |sub|][k] == s[i + k]; }
  }

  lemma PrefixChar(s: string, prefix: string, k: nat)
    requires k < |prefix|
    ensures HasPrefix(s, prefix) ==> s[k] == prefix[k]
  {
    if HasPrefix(s, prefix) { assert s[..|prefix|][k] == s[k]; }
  }

  /** First occurrence of `sub` at or after `from`, or -1. */
  function IndexFrom(s: string, sub: string, from: nat): (r: int)
    ensures r == -1 || (from <= r && OccursAt(s, sub, r))
    ensures forall j :: from <= j && OccursAt(s, sub, j) ==> r != -1 && r <= j
    decreases |s| - from
  {
    if from + |sub| > |s| then -1
    else if OccursAt(s, sub, from) then from
    else IndexFrom(s, sub, from + 1)
  }

  function Index(s: string, sub: string): (r: int)
    ensures r == -1 || OccursAt(s, sub, r)
    ensures forall j :: OccursAt(s, sub, j) ==> r != -1 && r <= j
  {
    IndexFrom(s, sub, 0)
  }

  /** The separator behind the name is the first one in the two together. */
  predicate FirstAfter(name: string, sep: string) {
    Index(name + sep, sep) == |name|
  }

  /** Last occurrence of `sub` below `below`, or -1. */
  function LastIndexBelow(s: string, sub: string, below: nat): (r: int)
    ensures r == -1 || (r < below && OccursAt(s, sub, r))
    ensures forall j :: j < below && OccursAt(s, sub, j) ==> j <= r
    decreases below
  {
    if below == 0 then -1
    else if OccursAt(s, sub, below - 1) then below - 1
    else LastIndexBelow(s, sub, below - 1)
  }

  function LastIndex(s: string, sub: string): (r: int)
    ensures r == -1 || OccursAt(s, sub, r)
    ensures forall j :: OccursAt(s, sub, j) ==> j <= r
  {
    LastIndexBelow(s, sub, |s| + 1)
  }

  predicate Contains(s: string, sub: string) {
    Index(s, sub) >= 0
  }

  /** `strings.Split` on a one-character separator. */
  function Split(s: string, sep: char): (parts: seq<string>)
    ensures |parts| >= 1
  {
    if s == "" then [""]
    else if s[0] == sep then [""] + Split(s[1..], sep)
    else
      var rest := Split(s[1..], sep);
      [[s[0]] + rest[0]] + rest[1..]
  }

  /** Splitting cuts off the text before a separator whole. */
  lemma {:induction false} SplitAtSeparator(head: string, sep: char, tail: string)
    requires sep !in head
    ensures Split(head + [sep] + tail, sep) == [head] + Split(tail, sep)
  {
    var s := head + [sep] + tail;
    if head == "" {
      assert s[1..] == tail;
    } else {
      SplitAtSeparator(head[1..], sep, tail);
      assert s[1..] == head[1..] + [sep] + tail;
      assert [s[0]] + head[1..] == head;
    }
  }

  /** Text without the separator is one segment. */
  lemma {:induction false} SplitWhole(s: string, sep: char)
    requires sep !in s
    ensures Split(s, sep) == [s]
  {
    if s != "" {
      SplitWhole(s[1..], sep);
      assert [s[0]] + s[1..] == s;
    }
  }

  /** An occurrence inside a prefix of the text is an occurrence in the text, and conversely. */
  lemma OccursInPrefix(a: string, b: string, sub: string, i: int)
    requires 0 <= i && i + |sub| <= |a|
    ensures OccursAt(a + b, sub, i) <==> OccursAt(a, sub, i)
  {
    assert (a + b)[i..i + |sub|] == a[i..i + |sub|];
  }

  /** An occurrence past a prefix of the text is an occurrence in the rest, and conversely. */
  lemma OccursInSuffix(a: string, b: string, sub: string, i: int)
    requires |a| <= i
    ensures OccursAt(a + b, sub, i) <==> OccursAt(b, sub, i - |a|)
  {
    if i + |sub| <= |a + b| {
      assert (a + b)[i..i + |sub|] == b[i - |a|..i - |a| + |sub|];
    }
  }
}
