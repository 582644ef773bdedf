/**
 The filesystem blob backend: keys to objects, atomic replacement, and the
 paged listing under a directory. Failures of the operating system are inputs.
 */
module Storage {
  import opened Text
  import opened Sequences
  import opened Order

  type Bytes = seq<bv8>
  type Objects = map<string, Bytes>

  datatype Error = NotFound | InvalidKey | InvalidDigest | IoFailure
  datatype Result<+T> = Ok(value: T) | Err(error: Error)

  /** Keys the backend maps to a file below its root. */
  predicate Resolvable(key: string) {
    key != "" && !Contains(key, "..")
  }

  /** `List` walks the directory named by `prefix` and keeps the keys that begin with `prefix`. */
  predicate InDir(prefix: string, key: string) {
    && HasPrefix(key, prefix)
    && (prefix == "" || HasPrefix(key, TrimSuffix(prefix, "/") + "/"))
  }

  ghost function Listed(objects: Objects, prefix: string): set<string> {
    set k | k in objects && InDir(prefix, k)
  }

  datatype ListResult = ListResult(keys: seq<string>, next: string)

  const DEFAULT_LIMIT: nat := 1000

  function EffectiveLimit(limit: int): nat {
    if limit <= 0 || limit > 10000 then DEFAULT_LIMIT else limit
  }

  /** One page: the first `limit` keys after the token, and the last of them as next token if more remain. */
  ghost function PageOf(s: set<string>, token: string, limit: nat): ListResult
    requires limit > 0
  {
    var ks := Sorted(Beyond(s, token));
    if |ks| > limit then ListResult(ks[..limit], ks[limit - 1]) else ListResult(ks, "")
  }

  class Backend {
    var objects: Objects

    ghost predicate Valid()
      reads this
    {
      forall k :: k in objects ==> Resolvable(k)
    }

    constructor ()
      ensures Valid() && objects == map[]
    {
      objects := map[];
    }

    method Get(key: string, fails: bool) returns (r: Result<Bytes>)
      requires Valid()
      ensures r == if !Resolvable(key) then Err(InvalidKey)
                   else if fails then Err(IoFailure)
                   else if key in objects then Ok(objects[key]) else Err(NotFound)
    {
      if !Resolvable(key) { return Err(InvalidKey); }
      if fails { return Err(IoFailure); }
      if key !in objects { return Err(NotFound); }
      r := Ok(objects[key]);
    }

    method Stat(key: string, fails: bool) returns (r: Result<nat>)
      requires Valid()
      ensures r == if !Resolvable(key) then Err(InvalidKey)
                   else if fails then Err(IoFailure)
                   else if key in objects then Ok(|objects[key]|) else Err(NotFound)
    {
      if !Resolvable(key) { return Err(InvalidKey); }
      if fails { return Err(IoFailure); }
      if key !in objects { return Err(NotFound); }
      r := Ok(|objects[key]|);
    }

    /** Write to a temporary file and rename: the object is replaced whole or not at all. */
    method Put(key: string, body: Bytes, fails: bool) returns (r: Result<nat>)
      requires Valid()
      modifies this
      ensures Valid()
      ensures r.Ok? <==> Resolvable(key) && !fails
      ensures r.Ok? ==> r.value == |body| && objects == old(objects)[key := body]
      ensures r.Err? ==> objects == old(objects)
    {
      if !Resolvable(key) { return Err(InvalidKey); }
      if fails { return Err(IoFailure); }
      objects := objects[key := body];
      r := Ok(|body|);
    }

    /** A missing object is not an error. */
    method Delete(key: string, fails: bool) returns (r: Result<()>)
      requires Valid()
      modifies this
      ensures Valid()
      ensures r.Ok? <==> Resolvable(key) && !fails
      ensures objects == if r.Ok? then old(objects) - {key} else old(objects)
    {
      if !Resolvable(key) { return Err(InvalidKey); }
      if fails { return Err(IoFailure); }
      objects := objects - {key};
      r := Ok(());
    }

    /** Walk the directory of `prefix` in whatever order the filesystem offers. */
    method Collect(prefix: string) returns (keys: seq<string>)
      ensures Elems(keys) == Listed(objects, prefix)
      ensures forall i, j :: 0 <= i < j < |keys| ==> keys[i] != keys[j]
    {
      keys := [];
      var walk := objects.Keys;
      while walk != {}
        invariant walk <= objects.Keys
        invariant forall k :: k in keys <==> k in objects.Keys - walk && InDir(prefix, k)
        invariant forall i, j :: 0 <= i < j < |keys| ==> keys[i] != keys[j]
      {
        var k :| k in walk;
        walk := walk - {k};
        if InDir(prefix, k) { keys := keys + [k]; }
      }
    }

    method List(prefix: string, token: string, limit: int, fails: bool) returns (r: Result<ListResult>)
      requires Valid()
      ensures r.Ok? <==> !fails && !Contains(prefix, "..")
      ensures r.Ok? ==> r.value == PageOf(Listed(objects, prefix), token, EffectiveLimit(limit))
      ensures r.Ok? ==> |r.value.keys| <= (if 1 <= limit <= 10000 then limit else 1000)
      ensures r.Ok? && r.value.next != "" ==>
                && |r.value.keys| == (if 1 <= limit <= 10000 then limit else 1000)
                && r.value.next == r.value.keys[|r.value.keys| - 1]
    {
      if fails { return Err(IoFailure); }
      if Contains(prefix, "..") { return Err(InvalidKey); }
      var keys := Collect(prefix);
      keys := SortStrings(keys);
      keys := AfterToken(keys, token, Listed(objects, prefix));
      var next := "";
      var lim := EffectiveLimit(limit);
      if |keys| > lim {
        keys := keys[..lim];
        next := keys[|keys| - 1];
      }
      r := Ok(ListResult(keys, next));
    }
  }

  /** The cursor of `List`: drop the keys up to and including the token. */
  method AfterToken(keys: seq<string>, token: string, ghost s: set<string>) returns (rest: seq<string>)
    requires keys == Sorted(s)
    ensures rest == Sorted(Beyond(s, token))
  {
    if token == "" {
      assert Beyond(s, token) == s;
      return keys;
    }
    var i := SearchStrings(keys, token);
    CursorSkips(keys, s, token, i);
    if i < |keys| && keys[i] == token { i := i + 1; }
    rest := keys[i..];
  }

  /** Cutting the listing where it passes the token leaves the listing of what lies beyond it. */
  lemma CutAtToken(ks: seq<string>, s: set<string>, token: string, start: nat)
    requires token != "" && ks == Sorted(s) && start <= |ks|
    requires forall j :: 0 <= j < start ==> !Lt(token, ks[j])
    requires forall j :: start <= j < |ks| ==> Lt(token, ks[j])
    ensures ks[start..] == Sorted(Beyond(s, token))
  {
    var rest := ks[start..];
    forall k ensures k in rest <==> k in Beyond(s, token) {
      if k in rest {
        var j :| 0 <= j < |rest| && rest[j] == k;
        assert rest[j] == ks[start + j] && ks[start + j] in ks;
      }
      if k in Beyond(s, token) {
        assert k in ks;
        var j :| 0 <= j < |ks| && ks[j] == k;
        assert rest[j - start] == k;
      }
    }
    SortedUnique(rest, Beyond(s, token));
  }

  lemma {:induction false} CursorCuts(ks: seq<string>, token: string, i: nat)
    requires Increasing(ks) && i <= |ks|
    requires forall j :: 0 <= j < i ==> Lt(ks[j], token)
    requires forall j :: i <= j < |ks| ==> !Lt(ks[j], token)
    ensures var start := if i < |ks| && ks[i] == token then i + 1 else i;
            && (forall j :: 0 <= j < start ==> !Lt(token, ks[j]))
            && (forall j :: start <= j < |ks| ==> Lt(token, ks[j]))
  {
    var start := if i < |ks| && ks[i] == token then i + 1 else i;
    LtIrreflexive(token);
    forall j | 0 <= j < i ensures !Lt(token, ks[j]) { LtAsymmetric(ks[j], token); }
    forall j | start <= j < |ks| ensures Lt(token, ks[j]) {
      LtTotal(token, ks[j]);
      if ks[j] == token { LtAsymmetric(ks[i], ks[j]); }
    }
  }

  /** The position found by binary search, moved past the token itself, cuts the listing at the token. */
  lemma {:induction false} CursorSkips(ks: seq<string>, s: set<string>, token: string, i: nat)
    requires token != "" && ks == Sorted(s) && i <= |ks|
    requires forall j :: 0 <= j < i ==> Lt(ks[j], token)
    requires forall j :: i <= j < |ks| ==> !Lt(ks[j], token)
    ensures ks[(if i < |ks| && ks[i] == token then i + 1 else i)..] == Sorted(Beyond(s, token))
  {
    CursorCuts(ks, token, i);
    CutAtToken(ks, s, token, if i < |ks| && ks[i] == token then i + 1 else i);
  }

  /** For the whole store or a prefix ending in a slash, the walked directory holds every key with the prefix. */
  lemma DirectoryPrefix(prefix: string)
    ensures (forall key :: InDir(prefix, key) <==> HasPrefix(key, prefix))
       <==> prefix == "" || HasSuffix(prefix, "/")
  {
    if prefix == "" || HasSuffix(prefix, "/") {
      if prefix != "" { assert TrimSuffix(prefix, "/") + "/" == prefix; }
    } else {
      assert TrimSuffix(prefix, "/") == prefix;
      assert HasPrefix(prefix, prefix);
      assert !HasPrefix(prefix, prefix + "/");
      assert !InDir(prefix, prefix);
    }
  }

  /** A page followed by everything beyond its token is everything beyond the previous token. */
  lemma PageSplits(s: set<string>, token: string, limit: nat)
    requires limit > 0 && "" !in s
    ensures var p := PageOf(s, token, limit);
            && Sorted(Beyond(s, token)) == p.keys + (if p.next == "" then [] else Sorted(Beyond(s, p.next)))
            && (p.next != "" ==>
                  && p.next in s && (token == "" || Lt(token, p.next))
                  && |Beyond(s, p.next)| < |Beyond(s, token)|)
  {
    var b := Beyond(s, token);
    var ks := Sorted(b);
    if |ks| > limit {
      var next := ks[limit - 1];
      assert next in ks && next in b && next in s;
      SortedBeyond(b, limit - 1);
      BeyondTwice(s, token, next);
      SplitAt(ks, limit);
    }
  }

  /** The keys returned by following next-tokens, when the i-th page is read from the i-th snapshot. */
  ghost function Walk(snaps: seq<set<string>>, token: string, limit: nat): seq<string>
    requires limit > 0
  {
    if snaps == [] then []
    else
      var p := PageOf(snaps[0], token, limit);
      p.keys + (if p.next == "" then [] else Walk(snaps[1..], p.next, limit))
  }

  ghost predicate Completes(snaps: seq<set<string>>, token: string, limit: nat)
    requires limit > 0
  {
    snaps != [] &&
    var p := PageOf(snaps[0], token, limit);
    p.next == "" || Completes(snaps[1..], p.next, limit)
  }

  /** On an unchanging store the walk ends and returns the sorted keys, each once. */
  lemma {:induction false} WalkIsSortedListing(s: set<string>, snaps: seq<set<string>>, token: string, limit: nat)
    requires limit > 0 && "" !in s
    requires forall i :: 0 <= i < |snaps| ==> snaps[i] == s
    requires |snaps| > |Beyond(s, token)|
    ensures Completes(snaps, token, limit)
    ensures Walk(snaps, token, limit) == Sorted(Beyond(s, token))
  {
    PageSplits(s, token, limit);
    var p := PageOf(s, token, limit);
    if p.next != "" { WalkIsSortedListing(s, snaps[1..], p.next, limit); }
  }

  /** What a walk promises: ascending keys past the token, each from some snapshot. */
  ghost predicate Covers(keys: seq<string>, snaps: seq<set<string>>, token: string) {
    && Increasing(keys)
    && (forall k :: k in keys ==> token == "" || Lt(token, k))
    && (forall k :: k in keys ==> exists i :: 0 <= i < |snaps| && k in snaps[i])
  }

  ghost predicate Lasting(k: string, snaps: seq<set<string>>) {
    forall i :: 0 <= i < |snaps| ==> k in snaps[i]
  }

  lemma AppendIncreasing(a: seq<string>, b: seq<string>, mid: string)
    requires Increasing(a) && Increasing(b)
    requires forall k :: k in a ==> k == mid || Lt(k, mid)
    requires forall k :: k in b ==> Lt(mid, k)
    ensures Increasing(a + b)
  {
    var all := a + b;
    forall i, j | 0 <= i < j < |all| ensures Lt(all[i], all[j]) {
      if i < |a| <= j {
        assert all[i] in a && all[j] in b;
        if all[i] != mid { LtTransitive(all[i], mid, all[j]); }
      }
    }
  }

  /** The keys of a page come from the store, lie past the old token and do not pass the next one. */
  lemma PageBelowToken(s: set<string>, token: string, limit: nat)
    requires limit > 0
    ensures var p := PageOf(s, token, limit);
            && Increasing(p.keys)
            && (forall k :: k in p.keys ==> k in s && (token == "" || Lt(token, k)))
            && (p.next != "" ==> forall k :: k in p.keys ==> k == p.next || Lt(k, p.next))
  {
    var ks := Sorted(Beyond(s, token));
    if |ks| <= limit { return; }
    forall k | k in ks[..limit]
      ensures k in Beyond(s, token) && (k == ks[limit - 1] || Lt(k, ks[limit - 1]))
    {
      var i :| 0 <= i < limit && ks[i] == k;
      assert ks[i] in ks;
    }
  }

  /** A page that is not the last, followed by a walk from its token, covers. */
  lemma {:induction false} PageThenWalk(snaps: seq<set<string>>, token: string, limit: nat, rest: seq<string>)
    requires limit > 0 && snaps != [] && "" !in snaps[0]
    requires PageOf(snaps[0], token, limit).next != ""
    requires Covers(rest, snaps[1..], PageOf(snaps[0], token, limit).next)
    ensures Covers(PageOf(snaps[0], token, limit).keys + rest, snaps, token)
  {
    var p := PageOf(snaps[0], token, limit);
    var all := p.keys + rest;
    PageSplits(snaps[0], token, limit);
    PageBelowToken(snaps[0], token, limit);
    AppendIncreasing(p.keys, rest, p.next);
    forall k | k in all ensures token == "" || Lt(token, k) {
      if k in rest && token != "" { LtTransitive(token, p.next, k); }
    }
    forall k | k in all ensures exists i :: 0 <= i < |snaps| && k in snaps[i] {
      if k in p.keys { assert k in snaps[0]; } else { InLaterSnapshot(snaps, k); }
    }
  }

  lemma InLaterSnapshot(snaps: seq<set<string>>, k: string)
    requires snaps != [] && exists i :: 0 <= i < |snaps[1..]| && k in snaps[1..][i]
    ensures exists i :: 0 <= i < |snaps| && k in snaps[i]
  {
    var i :| 0 <= i < |snaps[1..]| && k in snaps[1..][i];
    assert k in snaps[i + 1];
  }

  /** A lasting key is on the first page or still ahead of its token. */
  lemma OnPageOrAhead(s: set<string>, token: string, limit: nat, k: string)
    requires limit > 0 && "" !in s && k in s && (token == "" || Lt(token, k))
    ensures var p := PageOf(s, token, limit);
            k in p.keys || (p.next != "" && Lt(p.next, k))
  {
    var p := PageOf(s, token, limit);
    PageSplits(s, token, limit);
    assert k in Sorted(Beyond(s, token));
    if k !in p.keys { assert k in Sorted(Beyond(s, p.next)); }
  }

  /**
   While other writers add and remove keys between pages, the returned keys still
   ascend strictly, so none is repeated, and every key present in all snapshots is
   returned.
   */
  lemma {:induction false} WalkUnderChange(snaps: seq<set<string>>, token: string, limit: nat)
    requires limit > 0
    requires forall i :: 0 <= i < |snaps| ==> "" !in snaps[i]
    ensures Covers(Walk(snaps, token, limit), snaps, token)
    ensures Completes(snaps, token, limit) ==>
              forall k :: (token == "" || Lt(token, k)) && Lasting(k, snaps) ==> k in Walk(snaps, token, limit)
  {
    if snaps != [] {
      var p := PageOf(snaps[0], token, limit);
      if p.next != "" {
        WalkUnderChange(snaps[1..], p.next, limit);
        PageThenWalk(snaps, token, limit, Walk(snaps[1..], p.next, limit));
      } else {
        assert forall k :: k in p.keys ==> k in Beyond(snaps[0], token);
      }
      forall k | Completes(snaps, token, limit) && (token == "" || Lt(token, k)) && Lasting(k, snaps)
        ensures k in Walk(snaps, token, limit)
      {
        OnPageOrAhead(snaps[0], token, limit, k);
        assert Lasting(k, snaps[1..]);
      }
    }
  }
}
