/**
 SQL `LIKE`, which is how a path prefix is looked up. SQLite folds the case of
 ASCII letters and has no escape character by default; PostgreSQL compares exactly
 and escapes with a backslash.
 */
module Like {
  import opened Text

  datatype Dialect = Sqlite | Postgres

  function Fold(c: char): char {
    if IsUpper(c) then c + 32 as char else c
  }

  function SwapCase(c: char): char {
    if IsUpper(c) then c + 32 as char else if IsLower(c) then c - 32 as char else c
  }

  predicate SameChar(d: Dialect, a: char, b: char) {
    if d.Sqlite? then Fold(a) == Fold(b) else a == b
  }

  predicate Escapes(d: Dialect, c: char) {
    d.Postgres? && c == '\\'
  }

  predicate Matches(d: Dialect, pattern: string, s: string)
    decreases |pattern| + |s|
  {
    if pattern == "" then s == ""
    else if pattern[0] == '%' then
      Matches(d, pattern[1..], s) || (s != "" && Matches(d, pattern, s[1..]))
    else if Escapes(d, pattern[0]) then
      |pattern| >= 2 && s != "" && pattern[1] == s[0] && Matches(d, pattern[2..], s[1..])
    else
      s != "" && (pattern[0] == '_' || SameChar(d, pattern[0], s[0])) && Matches(d, pattern[1..], s[1..])
  }

  /** The pattern the listing queries build from a prefix. */
  predicate MatchesPrefix(d: Dialect, prefix: string, s: string) {
    Matches(d, prefix + "%", s)
  }

  predicate WildcardFree(d: Dialect, prefix: string) {
    forall i :: 0 <= i < |prefix| ==> prefix[i] != '%' && prefix[i] != '_' && !Escapes(d, prefix[i])
  }

  predicate Caseless(prefix: string) {
    forall i :: 0 <= i < |prefix| ==> !IsUpper(prefix[i]) && !IsLower(prefix[i])
  }

  /** Prefixes whose `LIKE` pattern is a literal prefix match. */
  predicate Plain(d: Dialect, prefix: string) {
    WildcardFree(d, prefix) && (d.Sqlite? ==> Caseless(prefix))
  }

  lemma {:induction false} PercentMatchesAll(d: Dialect, s: string)
    ensures Matches(d, "%", s)
  {
    if s == "" {
      assert "%"[1..] == "";
    } else {
      PercentMatchesAll(d, s[1..]);
    }
  }

  predicate PercentFree(d: Dialect, prefix: string) {
    forall i :: 0 <= i < |prefix| ==> prefix[i] != '%' && !Escapes(d, prefix[i])
  }

  predicate Fits(d: Dialect, prefix: string, s: string) {
    |prefix| <= |s| && forall i :: 0 <= i < |prefix| ==> prefix[i] == '_' || SameChar(d, prefix[i], s[i])
  }

  lemma FitsStep(d: Dialect, prefix: string, s: string)
    requires prefix != "" && s != ""
    ensures Fits(d, prefix, s) <==>
            (prefix[0] == '_' || SameChar(d, prefix[0], s[0])) && Fits(d, prefix[1..], s[1..])
  {
    if (prefix[0] == '_' || SameChar(d, prefix[0], s[0])) && Fits(d, prefix[1..], s[1..]) {
      forall i | 0 <= i < |prefix| ensures prefix[i] == '_' || SameChar(d, prefix[i], s[i]) {
        if i > 0 { assert prefix[1..][i - 1] == '_' || SameChar(d, prefix[1..][i - 1], s[1..][i - 1]); }
      }
    }
  }

  /** Without `%` and escapes, the pattern matches exactly the strings that fit it character by character. */
  lemma {:induction false} WithoutPercent(d: Dialect, prefix: string, s: string)
    requires PercentFree(d, prefix)
    ensures MatchesPrefix(d, prefix, s) <==> Fits(d, prefix, s)
  {
    if prefix == "" {
      assert prefix + "%" == "%";
      PercentMatchesAll(d, s);
    } else if s != "" {
      assert (prefix + "%")[1..] == prefix[1..] + "%";
      WithoutPercent(d, prefix[1..], s[1..]);
      FitsStep(d, prefix, s);
    }
  }

  /** A plain prefix is matched literally. */
  lemma PlainIsLiteral(d: Dialect, prefix: string, s: string)
    requires Plain(d, prefix)
    ensures MatchesPrefix(d, prefix, s) <==> HasPrefix(s, prefix)
  {
    WithoutPercent(d, prefix, s);
    PrefixByChars(s, prefix);
  }

  /** Unless the prefix holds an escape character, nothing that begins with it is missed. */
  lemma {:induction false} FindsLiteralMatches(d: Dialect, prefix: string, s: string)
    requires forall i :: 0 <= i < |prefix| ==> !Escapes(d, prefix[i])
    requires HasPrefix(s, prefix)
    ensures MatchesPrefix(d, prefix, s)
  {
    if prefix == "" {
      assert prefix + "%" == "%";
      PercentMatchesAll(d, s);
    } else {
      var p := prefix + "%";
      assert p[1..] == prefix[1..] + "%";
      assert s[0] == prefix[0];
      assert s[1..][..|prefix| - 1] == s[..|prefix|][1..];
      FindsLiteralMatches(d, prefix[1..], s[1..]);
      if p[0] == '%' { assert Matches(d, p, s[1..]) by { PercentAbsorbs(d, p, s[1..]); } }
    }
  }

  lemma PercentAbsorbs(d: Dialect, p: string, s: string)
    requires p != "" && p[0] == '%' && Matches(d, p[1..], s)
    ensures Matches(d, p, s)
  {
  }

  /** A shortest string matched by a pattern, spelled differently from it wherever the pattern allows. */
  function Decoy(d: Dialect, pattern: string): string {
    if pattern == "" then ""
    else if pattern[0] == '%' then Decoy(d, pattern[1..])
    else if Escapes(d, pattern[0]) then
      if |pattern| == 1 then "" else [pattern[1]] + Decoy(d, pattern[2..])
    else if pattern[0] == '_' then "x" + Decoy(d, pattern[1..])
    else [if d.Sqlite? then SwapCase(pattern[0]) else pattern[0]] + Decoy(d, pattern[1..])
  }

  /** The decoy of a prefix pattern is matched, and begins with the prefix only if the prefix is plain. */
  lemma {:induction false} DecoyFools(d: Dialect, prefix: string)
    ensures MatchesPrefix(d, prefix, Decoy(d, prefix + "%"))
    ensures |Decoy(d, prefix + "%")| <= |prefix|
    ensures !Plain(d, prefix) ==> Decoy(d, prefix + "%") != prefix
  {
    var p := prefix + "%";
    if prefix == "" {
      assert p == "%" && p[1..] == "";
      PercentMatchesAll(d, "");
    } else if Escapes(d, prefix[0]) {
      if |prefix| == 1 {
        assert p[1] == '%' && p[2..] == "";
      } else {
        assert p[2..] == prefix[2..] + "%" && p[1] == prefix[1];
        DecoyFools(d, prefix[2..]);
      }
    } else {
      assert p[1..] == prefix[1..] + "%";
      DecoyFools(d, prefix[1..]);
      var w := Decoy(d, p);
      if w == prefix {
        assert w[0] == prefix[0] && w[1..] == prefix[1..];
        assert Plain(d, prefix[1..]);
        forall i | 0 <= i < |prefix| ensures Plain(d, [prefix[i]]) {
          if i > 0 { assert prefix[i] == prefix[1..][i - 1]; }
        }
        assert forall i :: 0 <= i < |prefix| ==> [prefix[i]][0] == prefix[i];
      }
    }
  }

  /** `LIKE` on a prefix is a literal prefix match for all strings if and only if the prefix is plain. */
  lemma LiteralIffPlain(d: Dialect, prefix: string)
    ensures (forall s :: MatchesPrefix(d, prefix, s) <==> HasPrefix(s, prefix)) <==> Plain(d, prefix)
  {
    if Plain(d, prefix) {
      forall s ensures MatchesPrefix(d, prefix, s) <==> HasPrefix(s, prefix) { PlainIsLiteral(d, prefix, s); }
    } else {
      DecoyFools(d, prefix);
      var w := Decoy(d, prefix + "%");
      assert MatchesPrefix(d, prefix, w) && !HasPrefix(w, prefix);
    }
  }
}
