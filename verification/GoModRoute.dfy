/**
 Module paths in GOPROXY URLs: the `!`-escape of capital letters ("GOPROXY protocol"
 in the Go Modules Reference) and the classification of request paths.
 */
module GoModRoute {
  import opened Text
  import opened Sequences
  import opened Wrappers

  function ToUpper(c: char): (u: char)
    requires IsLower(c)
    ensures IsUpper(u) && u as int - 'A' as int == c as int - 'a' as int
  {
    c - 32 as char
  }

  function ToLower(c: char): (l: char)
    requires IsUpper(c)
    ensures IsLower(l) && l as int - 'a' as int == c as int - 'A' as int
  {
    c + 32 as char
  }

  /** What the decoding loop makes of the rest of its input. */
  function Unescape(s: string): Option<string> {
    if s == "" then Some("")
    else if s[0] == '!' then
      if |s| < 2 || !IsLower(s[1]) then None
      else
        var rest := Unescape(s[2..]);
        if rest.None? then None else Some([ToUpper(s[1])] + rest.value)
    else
      var rest := Unescape(s[1..]);
      if rest.None? then None else Some([s[0]] + rest.value)
  }

  function Decode(s: string): Option<string> {
    if s == "" then None else Unescape(s)
  }

  /** The escaping that the protocol prescribes. */
  function Encode(m: string): string {
    if m == "" then ""
    else (if IsUpper(m[0]) then ['!', ToLower(m[0])] else [m[0]]) + Encode(m[1..])
  }

  function Prefixed(b: string, rest: Option<string>): Option<string> {
    if rest.None? then None else Some(b + rest.value)
  }

  method DecodeModule(s: string) returns (r: Option<string>)
    ensures r == Decode(s)
  {
    if s == "" { return None; }
    var b := "";
    var i := 0;
    Joined(s, 0);
    NothingAdded(b, Unescape(s));
    while i < |s|
      invariant 0 <= i <= |s|
      invariant Unescape(s) == Prefixed(b, Unescape(s[i..]))
    {
      var c := s[i];
      Joined(s, i);
      if c == '!' {
        if i + 1 >= |s| { return None; }
        var next := s[i + 1];
        if next < 'a' || next > 'z' { return None; }
        Joined(s, i + 1);
        AddOne(b, ToUpper(next), Unescape(s[i + 2..]));
        b := b + [ToUpper(next)];
        i := i + 2;
      } else {
        AddOne(b, c, Unescape(s[i + 1..]));
        b := b + [c];
        i := i + 1;
      }
    }
    NothingAdded(b, None);
    r := Some(b);
  }

  lemma Joined(s: string, i: nat)
    requires i <= |s|
    ensures s[0..] == s
    ensures i < |s| ==> s[i..][0] == s[i] && s[i..][1..] == s[i + 1..]
    ensures i + 1 < |s| ==> s[i..][2..] == s[i + 2..]
  {
  }

  lemma NothingAdded(b: string, rest: Option<string>)
    ensures Prefixed("", rest) == rest && Prefixed(b, Some("")) == Some(b)
  {
    assert b + "" == b;
    if rest.Some? { assert "" + rest.value == rest.value; }
  }

  lemma AddOne(b: string, c: char, rest: Option<string>)
    ensures Prefixed(b, if rest.None? then None else Some([c] + rest.value)) == Prefixed(b + [c], rest)
  {
    if rest.Some? { assert b + ([c] + rest.value) == b + [c] + rest.value; }
  }

  // ---------------------------------------------------------------- the escape

  /** Every `!` is followed by a lower-case letter. */
  predicate WellEscaped(s: string) {
    forall i :: 0 <= i < |s| ==> EscapesAt(s, i)
  }

  /** The `!` at position `i`, if that is what is there, escapes a letter. */
  predicate EscapesAt(s: string, i: int)
    requires 0 <= i < |s|
  {
    s[i] == '!' ==> i + 1 < |s| && IsLower(s[i + 1])
  }

  lemma WellEscapedTail(s: string, k: nat)
    requires k <= |s|
    ensures WellEscaped(s) <==> WellEscaped(s[k..]) && forall i :: 0 <= i < k ==> EscapesAt(s, i)
  {
    assert forall i :: k <= i < |s| ==> s[i] == s[k..][i - k];
    assert forall i :: k <= i < |s| ==> (EscapesAt(s, i) <==> EscapesAt(s[k..], i - k));
    assert forall i :: 0 <= i < |s| - k ==> (EscapesAt(s[k..], i) <==> EscapesAt(s, i + k));
  }

  lemma {:induction false} UnescapeSucceedsIff(s: string)
    ensures Unescape(s).Some? <==> WellEscaped(s)
    ensures Unescape(s).Some? ==> '!' !in Unescape(s).value && (s != "" ==> Unescape(s).value != "")
    decreases |s|
  {
    if s != "" {
      if s[0] != '!' {
        WellEscapedTail(s, 1);
        UnescapeSucceedsIff(s[1..]);
      } else if |s| >= 2 && IsLower(s[1]) {
        WellEscapedTail(s, 2);
        UnescapeSucceedsIff(s[2..]);
      } else {
        assert !EscapesAt(s, 0);
      }
    }
  }

  /** Decoding succeeds exactly on non-empty, well-escaped text, and its result is a non-empty path without `!`. */
  lemma DecodeSucceedsIff(s: string)
    ensures Decode(s).Some? <==> s != "" && WellEscaped(s)
    ensures Decode(s).Some? ==> Decode(s).value != "" && '!' !in Decode(s).value
  {
    UnescapeSucceedsIff(s);
  }

  lemma {:induction false} UnescapeEncode(m: string)
    requires '!' !in m
    ensures Unescape(Encode(m)) == Some(m)
  {
    if m != "" {
      UnescapeEncode(m[1..]);
      var rest := Encode(m[1..]);
      assert m == [m[0]] + m[1..];
      if IsUpper(m[0]) {
        assert (['!', ToLower(m[0])] + rest)[2..] == rest;
      } else {
        assert ([m[0]] + rest)[1..] == rest;
      }
    }
  }

  /** A module path survives escaping and decoding exactly when it is non-empty and has no `!`. */
  lemma DecodeEncodeIff(m: string)
    ensures Decode(Encode(m)) == Some(m) <==> m != "" && '!' !in m
  {
    DecodeSucceedsIff(Encode(m));
    if m != "" && '!' !in m { UnescapeEncode(m); }
  }

  lemma {:induction false} EncodeUnescapeIff(s: string)
    requires Unescape(s).Some?
    ensures Encode(Unescape(s).value) == s <==> NoUpper(s)
    decreases |s|
  {
    if s != "" {
      var k := if s[0] == '!' then 2 else 1;
      var c := if s[0] == '!' then ToUpper(s[1]) else s[0];
      var rest := Unescape(s[k..]).value;
      EncodeUnescapeIff(s[k..]);
      assert ([c] + rest)[1..] == rest;
      SplitAt(s, k);
      assert NoUpper(s) <==> NoUpper(s[..k]) && NoUpper(s[k..]) by {
        assert forall i :: k <= i < |s| ==> s[i] == s[k..][i - k];
      }
      if s[0] == '!' {
        assert s[..2] == ['!', s[1]];
        assert Encode([c] + rest) == ['!', s[1]] + Encode(rest);
        assert (['!', s[1]] + Encode(rest))[2..] == Encode(rest);
      } else if IsUpper(s[0]) {
        assert Encode([c] + rest)[0] == '!';
      } else {
        assert s[..1] == [s[0]];
        assert ([s[0]] + Encode(rest))[1..] == Encode(rest);
      }
    }
  }

  /** Accepted text is the escape of what it decodes to exactly when it has no capital letter. */
  lemma EncodeDecodeIff(s: string)
    requires Decode(s).Some?
    ensures Encode(Decode(s).value) == s <==> NoUpper(s)
  {
    EncodeUnescapeIff(s);
  }

  // ---------------------------------------------------------------- request paths

  datatype Kind = List | Latest | Info | Mod | Zip

  /** `version` is empty where the kind has none. It is taken as it stands in the URL, escapes and all. */
  datatype Route = Unknown | Route(kind: Kind, mod: string, version: string)

  const LATEST: string := "/@latest"
  const LIST: string := "/@v/list"
  const VERSIONS: string := "/@v/"

  function ExtOf(kind: Kind): string
    requires kind.Info? || kind.Mod? || kind.Zip?
  {
    match kind
    case Info => ".info"
    case Mod => ".mod"
    case Zip => ".zip"
  }

  function ModuleRoute(kind: Kind, escaped: string, version: string): Route {
    var m := Decode(escaped);
    if m.None? then Unknown else Route(kind, m.value, version)
  }

  function FileRoute(escaped: string, rest: string): Route {
    if !(HasSuffix(rest, ".info") || HasSuffix(rest, ".mod") || HasSuffix(rest, ".zip")) then Unknown
    else
      var kind := if HasSuffix(rest, ".info") then Info else if HasSuffix(rest, ".mod") then Mod else Zip;
      var version := TrimSuffix(rest, ExtOf(kind));
      if version == "" then Unknown else ModuleRoute(kind, escaped, version)
  }

  function VersionRoute(p: string): Route {
    var i := LastIndex(p, VERSIONS);
    if i > 0 then FileRoute(p[..i], p[i + 4..]) else Unknown
  }

  function ParsePath(path: string): Route {
    var p := TrimPrefix(path, "/");
    if HasSuffix(p, LATEST) then ModuleRoute(Latest, TrimSuffix(p, LATEST), "")
    else if HasSuffix(p, LIST) then ModuleRoute(List, TrimSuffix(p, LIST), "")
    else VersionRoute(p)
  }

  function FileTail(version: string, kind: Kind): string
    requires kind.Info? || kind.Mod? || kind.Zip?
  {
    VERSIONS + (version + ExtOf(kind))
  }

  function FilePath(mod: string, version: string, kind: Kind): string
    requires kind.Info? || kind.Mod? || kind.Zip?
  {
    "/" + (Encode(mod) + FileTail(version, kind))
  }

  lemma SlashTrimmed(rest: string)
    ensures TrimPrefix("/" + rest, "/") == rest
  {
  }

  lemma LatestRoundTripsIff(m: string)
    ensures ParsePath("/" + (Encode(m) + LATEST)) == Route(Latest, m, "") <==> m != "" && '!' !in m
  {
    SlashTrimmed(Encode(m) + LATEST);
    assert TrimSuffix(Encode(m) + LATEST, LATEST) == Encode(m);
    DecodeEncodeIff(m);
  }

  lemma ListRoundTripsIff(m: string)
    ensures ParsePath("/" + (Encode(m) + LIST)) == Route(List, m, "") <==> m != "" && '!' !in m
  {
    SlashTrimmed(Encode(m) + LIST);
    assert TrimSuffix(Encode(m) + LIST, LIST) == Encode(m);
    LastOfList(Encode(m));
    DecodeEncodeIff(m);
  }

  lemma LastOfList(a: string)
    ensures !HasSuffix(a + LIST, LATEST)
  {
    assert HasSuffix(a + LIST, LATEST) ==> (a + LIST)[|a|..] == LATEST;
    assert (a + LIST)[|a|..] == LIST;
    assert LIST[2] == 'v' && LATEST[2] == 'l';
  }

  lemma LastInSuffix(a: string, b: string, sub: string)
    requires LastIndex(b, sub) >= 0
    ensures LastIndex(a + b, sub) == |a| + LastIndex(b, sub)
  {
    var i, j := LastIndex(a + b, sub), LastIndex(b, sub);
    OccursInSuffix(a, b, sub, |a| + j);
    OccursInSuffix(a, b, sub, i);
  }

  /** The extension decides the kind, and what precedes it is the version. */
  lemma FileRouteOf(escaped: string, version: string, kind: Kind)
    requires kind.Info? || kind.Mod? || kind.Zip?
    ensures FileRoute(escaped, version + ExtOf(kind)) ==
            if version == "" then Unknown else ModuleRoute(kind, escaped, version)
  {
    var rest := version + ExtOf(kind);
    assert rest[|rest| - 1] == ExtOf(kind)[|ExtOf(kind)| - 1];
    assert HasSuffix(rest, ExtOf(kind)) && TrimSuffix(rest, ExtOf(kind)) == version;
    LastOfSuffix(rest, ".info");
    LastOfSuffix(rest, ".mod");
    LastOfSuffix(rest, ".zip");
  }

  /** A shorter remainder never yields the whole version. */
  lemma ShorterRest(escaped: string, rest: string, kind: Kind, mod: string, version: string)
    requires kind.Info? || kind.Mod? || kind.Zip?
    requires |rest| < |version| + |ExtOf(kind)|
    ensures FileRoute(escaped, rest) != Route(kind, mod, version)
  {
  }

  lemma FileTailShape(version: string, kind: Kind)
    requires kind.Info? || kind.Mod? || kind.Zip?
    ensures var tail := FileTail(version, kind);
            && tail[|tail| - 1] != 't'
            && tail[4..] == version + ExtOf(kind)
            && LastIndex(tail, VERSIONS) >= 0
  {
    var tail := FileTail(version, kind);
    Joins(VERSIONS, version + ExtOf(kind));
    assert OccursAt(tail, VERSIONS, 0);
    assert tail[|tail| - 1] == ExtOf(kind)[|ExtOf(kind)| - 1];
  }

  /** A path that does not end in `t` is neither a list nor a latest request. */
  lemma NeitherListNorLatest(p: string)
    requires p != "" && p[|p| - 1] != 't'
    ensures ParsePath("/" + p) == VersionRoute(p)
  {
    SlashTrimmed(p);
    LastOfSuffix(p, LATEST);
    LastOfSuffix(p, LIST);
  }

  /** The last `/@v/` divides the path. */
  lemma VersionRouteOf(e: string, tail: string, j: int)
    requires j == LastIndex(tail, VERSIONS) && j >= 0
    ensures VersionRoute(e + tail) ==
            if |e| + j > 0 then FileRoute((e + tail)[..|e| + j], tail[j + 4..]) else Unknown
  {
    LastInSuffix(e, tail, VERSIONS);
    Joins(e, tail);
  }

  lemma ParseFilePath(mod: string, version: string, kind: Kind)
    requires kind.Info? || kind.Mod? || kind.Zip?
    ensures ParsePath(FilePath(mod, version, kind)) == VersionRoute(Encode(mod) + FileTail(version, kind))
  {
    var p := Encode(mod) + FileTail(version, kind);
    FileTailShape(version, kind);
    assert p[|p| - 1] == FileTail(version, kind)[|FileTail(version, kind)| - 1];
    NeitherListNorLatest(p);
  }

  lemma PlainVersion(e: string, version: string, kind: Kind)
    requires kind.Info? || kind.Mod? || kind.Zip?
    requires LastIndex(FileTail(version, kind), VERSIONS) == 0
    ensures VersionRoute(e + FileTail(version, kind)) ==
            if e == "" || version == "" then Unknown else ModuleRoute(kind, e, version)
  {
    var tail := FileTail(version, kind);
    FileTailShape(version, kind);
    VersionRouteOf(e, tail, 0);
    Joins(e, tail);
    FileRouteOf(e, version, kind);
  }

  lemma DividedVersion(e: string, mod: string, version: string, kind: Kind)
    requires kind.Info? || kind.Mod? || kind.Zip?
    requires LastIndex(FileTail(version, kind), VERSIONS) > 0
    ensures VersionRoute(e + FileTail(version, kind)) != Route(kind, mod, version)
  {
    var tail := FileTail(version, kind);
    var j := LastIndex(tail, VERSIONS);
    VersionRouteOf(e, tail, j);
    ShorterRest((e + tail)[..|e| + j], tail[j + 4..], kind, mod, version);
  }

  /**
   A version file's URL parses back to its module and version exactly when the module
   is non-empty and has no `!`, the version is non-empty, and `/@v/` does not occur
   again after the module.
   */
  lemma FileRoundTripsIff(mod: string, version: string, kind: Kind)
    requires kind.Info? || kind.Mod? || kind.Zip?
    ensures ParsePath(FilePath(mod, version, kind)) == Route(kind, mod, version) <==>
            && mod != "" && '!' !in mod && version != ""
            && LastIndex(FileTail(version, kind), VERSIONS) == 0
  {
    ParseFilePath(mod, version, kind);
    FileTailShape(version, kind);
    DecodeEncodeIff(mod);
    if LastIndex(FileTail(version, kind), VERSIONS) > 0 {
      DividedVersion(Encode(mod), mod, version, kind);
    } else {
      PlainVersion(Encode(mod), version, kind);
    }
  }
}
