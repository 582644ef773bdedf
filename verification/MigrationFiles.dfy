/**
 Reading the migration files: `<version>_<name>.up.sql`, sorted by version. The
 version is whatever `strconv.ParseInt` makes of the text before the underscore.
 */
module MigrationFiles {
  import opened Text
  import opened Sequences
  import opened Wrappers
  import opened Migrate

  const SUFFIX: string := ".up.sql"
  const MAX_INT64: int := 0x7fff_ffff_ffff_ffff

  /** A directory entry; `content` is absent when the file cannot be read. */
  datatype Entry = Entry(name: string, isDir: bool, content: Option<string>)

  datatype Parsed = Skipped | Refused | Found(m: Migration)

  predicate Digits(s: string) {
    s != "" && forall i :: 0 <= i < |s| ==> '0' <= s[i] <= '9'
  }

  function Value(s: string): nat
    requires forall i :: 0 <= i < |s| ==> '0' <= s[i] <= '9'
  {
    if s == "" then 0 else 10 * Value(s[..|s| - 1]) + (s[|s| - 1] - '0') as nat
  }

  /** Base 10, 64 bits: an optional sign, then digits. */
  function ParseInt(s: string): Option<int> {
    var negative := s != "" && s[0] == '-';
    var digits := if s != "" && (s[0] == '-' || s[0] == '+') then s[1..] else s;
    if !Digits(digits) then None
    else if Value(digits) > MAX_INT64 + (if negative then 1 else 0) then None
    else Some(if negative then 0 - Value(digits) as int else Value(digits) as int)
  }

  function Parse(e: Entry): Parsed {
    if e.isDir || !HasSuffix(e.name, SUFFIX) then Skipped
    else
      var base := TrimSuffix(e.name, SUFFIX);
      var us := Index(base, "_");
      if us <= 0 || ParseInt(base[..us]).None? || e.content.None? then Refused
      else Found(Migration(ParseInt(base[..us]).value, base[us + 1..], e.content.value))
  }

  /** The migrations in directory order, or nothing if one file is refused. */
  function Gather(entries: seq<Entry>): Option<seq<Migration>>
  {
    if entries == [] then Some([])
    else
      var before := Gather(entries[..|entries| - 1]);
      match Parse(entries[|entries| - 1])
      case Skipped => before
      case Refused => None
      case Found(m) => if before.None? then None else Some(before.value + [m])
  }

  lemma {:induction false} GatherRefuses(entries: seq<Entry>, n: nat)
    requires n <= |entries| && Gather(entries[..n]).None?
    ensures Gather(entries).None?
    decreases |entries| - n
  {
    if n < |entries| {
      assert entries[..n + 1][..n] == entries[..n];
      GatherRefuses(entries, n + 1);
    } else {
      assert entries[..n] == entries;
    }
  }

  /** A directory is refused exactly when one of its files is. */
  lemma {:induction false} GatherRefusesIff(entries: seq<Entry>)
    ensures Gather(entries).None? <==> exists e :: e in entries && Parse(e).Refused?
  {
    if entries != [] {
      var front, last := entries[..|entries| - 1], entries[|entries| - 1];
      assert entries == front + [last];
      GatherRefusesIff(front);
    }
  }

  /** A directory that is not refused yields the migrations of its well-named files, and nothing else. */
  lemma {:induction false} GatherHolds(entries: seq<Entry>, m: Migration)
    requires Gather(entries).Some?
    ensures m in Gather(entries).value <==> exists e :: e in entries && Parse(e) == Found(m)
    ensures |Gather(entries).value| <= |entries|
  {
    if entries != [] {
      var front, last := entries[..|entries| - 1], entries[|entries| - 1];
      assert entries == front + [last];
      GatherHolds(front, m);
    }
  }

  /** `sort.Slice` by version, which is not stable: migrations of one version may come in either order. */
  method SortByVersion(ms: seq<Migration>) returns (sorted: seq<Migration>)
    ensures SortedByVersion(sorted) && multiset(sorted) == multiset(ms)
  {
    sorted := [];
    for n := 0 to |ms|
      invariant SortedByVersion(sorted)
      invariant multiset(sorted) == multiset(ms[..n])
    {
      var i := 0;
      while i < |sorted| && sorted[i].version < ms[n].version
        invariant 0 <= i <= |sorted|
        invariant forall j :: 0 <= j < i ==> sorted[j].version < ms[n].version
      {
        i := i + 1;
      }
      OneMoreSorted(ms, n, sorted, i);
      sorted := sorted[..i] + [ms[n]] + sorted[i..];
    }
    SplitAt(ms, |ms|);
  }

  lemma OneMoreSorted(ms: seq<Migration>, n: nat, sorted: seq<Migration>, i: nat)
    requires n < |ms| && i <= |sorted|
    requires SortedByVersion(sorted) && multiset(sorted) == multiset(ms[..n])
    requires forall j :: 0 <= j < i ==> sorted[j].version < ms[n].version
    requires i < |sorted| ==> ms[n].version <= sorted[i].version
    ensures var more := sorted[..i] + [ms[n]] + sorted[i..];
            SortedByVersion(more) && multiset(more) == multiset(ms[..n + 1])
  {
    InsertedInOrder(sorted, i, ms[n]);
    Inserted(sorted, i, ms[n]);
    OneMoreTaken(ms, n);
  }

  lemma InsertedInOrder(ms: seq<Migration>, i: nat, m: Migration)
    requires SortedByVersion(ms) && i <= |ms|
    requires forall j :: 0 <= j < i ==> ms[j].version < m.version
    requires i < |ms| ==> m.version <= ms[i].version
    ensures SortedByVersion(ms[..i] + [m] + ms[i..])
  {
  }

  method LoadMigrations(entries: seq<Entry>) returns (r: Option<seq<Migration>>)
    ensures r.None? <==> Gather(entries).None?
    ensures r.Some? ==> SortedByVersion(r.value) && multiset(r.value) == multiset(Gather(entries).value)
  {
    var out: seq<Migration> := [];
    for n := 0 to |entries|
      invariant Gather(entries[..n]) == Some(out)
    {
      assert entries[..n + 1][..n] == entries[..n];
      var p := Parse(entries[n]);
      if p.Refused? {
        GatherRefuses(entries, n + 1);
        return None;
      }
      if p.Found? { out := out + [p.m]; }
    }
    assert entries[..|entries|] == entries;
    out := SortByVersion(out);
    r := Some(out);
  }

  // ---------------------------------------------------------------- names and versions

  function FileName(digits: string, name: string): string {
    digits + "_" + name + SUFFIX
  }

  lemma {:induction false} LeadingZero(s: string)
    requires forall i :: 0 <= i < |s| ==> '0' <= s[i] <= '9'
    ensures Value("0" + s) == Value(s)
  {
    if s != "" {
      var front := s[..|s| - 1];
      LeadingZero(front);
      assert ("0" + s)[..|s|] == "0" + front;
    }
  }

  lemma UnderscoreAt(digits: string, name: string)
    requires Digits(digits)
    ensures Index(digits + ("_" + name), "_") == |digits|
  {
    var base := digits + ("_" + name);
    assert OccursAt(base, "_", |digits|);
    forall j | 0 <= j < |digits| ensures !OccursAt(base, "_", j) { OccurrenceChar(base, "_", j, 0); }
  }

  lemma FileNameEnds(digits: string, name: string)
    ensures HasSuffix(FileName(digits, name), SUFFIX)
    ensures TrimSuffix(FileName(digits, name), SUFFIX) == digits + ("_" + name)
  {
    var base := digits + ("_" + name);
    assert FileName(digits, name) == base + SUFFIX;
    Joins(base, SUFFIX);
  }

  lemma CutAtUnderscore(digits: string, name: string)
    ensures var base := digits + ("_" + name);
            |digits| < |base| && base[..|digits|] == digits && base[|digits| + 1..] == name
  {
    Joins(digits, "_" + name);
    Joins("_", name);
  }

  lemma ParseDigits(digits: string)
    requires Digits(digits) && Value(digits) <= MAX_INT64
    ensures ParseInt(digits) == Some(Value(digits) as int)
  {
  }

  /** A file named in the documented way is found under the value of its digits. */
  lemma NamedFileParses(digits: string, name: string, body: string)
    requires Digits(digits) && Value(digits) <= MAX_INT64
    ensures Parse(Entry(FileName(digits, name), false, Some(body))) == Found(Migration(Value(digits), name, body))
  {
    FileNameEnds(digits, name);
    UnderscoreAt(digits, name);
    CutAtUnderscore(digits, name);
    ParseDigits(digits);
  }

  lemma GatherTwo(first: Entry, second: Entry, m: Migration, n: Migration)
    requires Parse(first) == Found(m) && Parse(second) == Found(n)
    ensures Gather([first, second]) == Some([m, n])
  {
    var none: seq<Entry> := [];
    assert Gather(none) == Some([]);
    assert [first, second][..1] == [first] && [first][..0] == none;
    assert Gather([first]).value == [m];
    assert [m] + [n] == [m, n];
  }

  lemma DigitsEnd(digits: string, a: string, b: string)
    requires Digits(digits)
    ensures FileName(digits, a) != FileName("0" + digits, b)
  {
    assert FileName(digits, a)[|digits|] == '_';
    assert FileName("0" + digits, b)[|digits|] == ("0" + digits)[|digits|] == digits[|digits| - 1];
  }

  /**
   Different file names do not make different versions: a leading zero is enough for
   two files to collide, and then one of the two bodies is lost without an error.
   */
  lemma SpellingsCollide(digits: string, a: string, b: string, bodyA: string, bodyB: string)
    requires Digits(digits) && Value(digits) <= MAX_INT64
    ensures var first := Entry(FileName(digits, a), false, Some(bodyA));
            var second := Entry(FileName("0" + digits, b), false, Some(bodyB));
            && first.name != second.name
            && Gather([first, second]) == Some([Migration(Value(digits), a, bodyA), Migration(Value(digits), b, bodyB)])
  {
    DigitsEnd(digits, a, b);
    NamedFileParses(digits, a, bodyA);
    PaddedFileParses(digits, b, bodyB);
    GatherTwo(Entry(FileName(digits, a), false, Some(bodyA)), Entry(FileName("0" + digits, b), false, Some(bodyB)),
              Migration(Value(digits), a, bodyA), Migration(Value(digits), b, bodyB));
  }

  lemma PaddedFileParses(digits: string, name: string, body: string)
    requires Digits(digits) && Value(digits) <= MAX_INT64
    ensures Parse(Entry(FileName("0" + digits, name), false, Some(body))) == Found(Migration(Value(digits), name, body))
  {
    LeadingZero(digits);
    NamedFileParses("0" + digits, name, body);
  }
}
