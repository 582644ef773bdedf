/**
 The artifact table and the two ways of looking through a group repository:
 one path at a time, and all paths under a prefix. Both tables of the database
 are fields that the statements update.
 */
module Artifacts {
  import opened Text
  import opened Sequences
  import opened Order
  import opened Like
  import opened Wrappers
  import opened Storage

  datatype Artifact = Artifact(id: string, repoId: string, path: string, digest: string,
                               size: nat, mediaType: string, metadata: string, createdAt: int)

  /** Rows are unique in (repository, path). */
  type Rows = map<(string, string), Artifact>

  datatype Kind = Hosted | Proxy | Group

  /** `members` is the list that a group's configuration yields, as far as it can be parsed. */
  datatype Repository = Repository(id: string, name: string, format: string, kind: Kind, members: seq<string>)

  /** The repositories table and its unique index on (name, format). */
  datatype Repos = Repos(byId: map<string, Repository>, byName: map<(string, string), string>)

  ghost predicate ValidRepos(repos: Repos) {
    && (forall k :: k in repos.byName ==> repos.byName[k] in repos.byId)
    && (forall k :: k in repos.byName ==>
          (repos.byId[repos.byName[k]].name, repos.byId[repos.byName[k]].format) == k)
    && (forall id :: id in repos.byId ==> repos.byId[id].id == id)
  }

  ghost predicate ValidRows(rows: Rows) {
    forall k :: k in rows ==> (rows[k].repoId, rows[k].path) == k
  }

  /** `INSERT .. ON CONFLICT (repo_id, path) DO UPDATE`: id and creation time of an existing row stay. */
  function Upsert(rows: Rows, id: string, now: int, repoId: string, path: string,
                  digest: string, size: nat, mediaType: string, metadata: string): Rows
  {
    var md := if metadata == "" then "{}" else metadata;
    rows[(repoId, path) :=
      if (repoId, path) in rows then
        rows[(repoId, path)].(digest := digest, size := size, mediaType := mediaType, metadata := md)
      else
        Artifact(id, repoId, path, digest, size, mediaType, md, now)]
  }

  ghost function MatchingPaths(d: Dialect, rows: Rows, repoId: string, prefix: string): (paths: set<string>)
    ensures forall p :: p in paths <==> (repoId, p) in rows && MatchesPrefix(d, prefix, p)
  {
    var paths := set k | k in rows && k.0 == repoId && MatchesPrefix(d, prefix, k.1) :: k.1;
    assert forall k: (string, string) | k in rows :: k == (k.0, k.1);
    assert forall p: string :: (repoId, p).0 == repoId && (repoId, p).1 == p;
    paths
  }

  function Fetch(rows: Rows, repoId: string, paths: seq<string>): seq<Artifact>
    requires forall i :: 0 <= i < |paths| ==> (repoId, paths[i]) in rows
  {
    seq(|paths|, i requires 0 <= i < |paths| => rows[(repoId, paths[i])])
  }

  /** `WHERE repo_id = ? AND path LIKE prefix || '%' ORDER BY path`. */
  ghost function ListByPrefix(d: Dialect, rows: Rows, repoId: string, prefix: string): seq<Artifact> {
    var paths := Sorted(MatchingPaths(d, rows, repoId, prefix));
    assert forall i :: 0 <= i < |paths| ==> paths[i] in paths;
    Fetch(rows, repoId, paths)
  }

  function LookUp(rows: Rows, repoId: string, path: string): Option<Artifact> {
    if (repoId, path) in rows then Some(rows[(repoId, path)]) else None
  }

  /**
   Queries of one lookup that fail: the group's own, the one for the group itself, and those
   on behalf of some members, by their place in the configuration.
   */
  datatype Outage = Outage(direct: bool, parent: bool, members: set<nat>)

  const NO_OUTAGE: Outage := Outage(false, false, {})

  /** Ids of the members that exist and can be asked, in configuration order. */
  function MemberIds(repos: Repos, members: seq<string>, format: string, down: set<nat>): seq<string>
  {
    if members == [] then []
    else
      var n := |members| - 1;
      var before := MemberIds(repos, members[..n], format, down);
      if (members[n], format) in repos.byName && n !in down
      then before + [repos.byName[(members[n], format)]] else before
  }

  /** The repositories a lookup goes through, in order. */
  function Chain(repos: Repos, repoId: string, down: set<nat>): seq<string> {
    if repoId in repos.byId && repos.byId[repoId].kind.Group? then
      [repoId] + MemberIds(repos, repos.byId[repoId].members, repos.byId[repoId].format, down)
    else
      [repoId]
  }

  /** The first hit along a chain of repositories. */
  function FirstHit(rows: Rows, chain: seq<string>, path: string): Option<Artifact> {
    if chain == [] then None
    else
      var earlier := FirstHit(rows, chain[..|chain| - 1], path);
      if earlier.Some? then earlier else LookUp(rows, chain[|chain| - 1], path)
  }

  /** With every query working. */
  function Resolve(repos: Repos, rows: Rows, repoId: string, path: string): Option<Artifact> {
    FirstHit(rows, Chain(repos, repoId, {}), path)
  }

  /** A member that cannot be asked is passed over; the group itself is only read after its own rows. */
  function ResolveUnder(repos: Repos, rows: Rows, repoId: string, path: string, f: Outage): Result<Artifact> {
    if f.direct then Err(IoFailure)
    else if f.parent && LookUp(rows, repoId, path).None? then Err(IoFailure)
    else
      var a := FirstHit(rows, Chain(repos, repoId, f.members), path);
      if a.Some? then Ok(a.value) else Err(NotFound)
  }

  function PathsOf(items: seq<Artifact>): set<string> {
    set i | 0 <= i < |items| :: items[i].path
  }

  function AppendUnseen(combined: seq<Artifact>, items: seq<Artifact>): seq<Artifact>
  {
    if items == [] then combined
    else
      var before := AppendUnseen(combined, items[..|items| - 1]);
      var a := items[|items| - 1];
      if a.path in PathsOf(before) then before else before + [a]
  }

  ghost function Combined(d: Dialect, rows: Rows, chain: seq<string>, prefix: string): seq<Artifact> {
    if chain == [] then []
    else AppendUnseen(Combined(d, rows, chain[..|chain| - 1], prefix),
                      ListByPrefix(d, rows, chain[|chain| - 1], prefix))
  }

  ghost function ResolveList(d: Dialect, repos: Repos, rows: Rows, repoId: string, prefix: string): seq<Artifact> {
    Combined(d, rows, Chain(repos, repoId, {}), prefix)
  }

  ghost function ListUnder(d: Dialect, repos: Repos, rows: Rows, repoId: string, prefix: string, f: Outage)
    : Result<seq<Artifact>>
  {
    if f.direct || f.parent then Err(IoFailure)
    else Ok(Combined(d, rows, Chain(repos, repoId, f.members), prefix))
  }

  class Store {
    const dialect: Dialect
    var repos: Repos
    var rows: Rows

    ghost predicate Valid()
      reads this
    {
      ValidRepos(repos) && ValidRows(rows)
    }

    constructor (dialect: Dialect)
      ensures Valid() && this.dialect == dialect && rows == map[] && repos == Repos(map[], map[])
    {
      this.dialect := dialect;
      repos := Repos(map[], map[]);
      rows := map[];
    }

    /** Fails on a database error and, by the foreign key, for an unknown repository. */
    method UpsertArtifact(id: string, now: int, repoId: string, path: string, digest: string,
                          size: nat, mediaType: string, metadata: string, fails: bool) returns (ok: bool)
      requires Valid()
      modifies this`rows
      ensures Valid()
      ensures ok <==> !fails && repoId in repos.byId
      ensures rows == if ok then Upsert(old(rows), id, now, repoId, path, digest, size, mediaType, metadata)
                      else old(rows)
    {
      ok := !fails && repoId in repos.byId;
      if ok { rows := Upsert(rows, id, now, repoId, path, digest, size, mediaType, metadata); }
    }

    method DeleteArtifact(repoId: string, path: string, fails: bool) returns (ok: bool)
      requires Valid()
      modifies this`rows
      ensures Valid()
      ensures ok <==> !fails
      ensures rows == if ok then old(rows) - {(repoId, path)} else old(rows)
    {
      ok := !fails;
      if ok { rows := rows - {(repoId, path)}; }
    }

    method GetArtifact(repoId: string, path: string, fails: bool) returns (r: Result<Artifact>)
      ensures r == if fails then Err(IoFailure)
                   else if LookUp(rows, repoId, path).Some? then Ok(LookUp(rows, repoId, path).value)
                   else Err(NotFound)
    {
      if fails { return Err(IoFailure); }
      if (repoId, path) !in rows { return Err(NotFound); }
      r := Ok(rows[(repoId, path)]);
    }

    method Get(name: string, format: string) returns (r: Option<Repository>)
      requires Valid()
      ensures r == if (name, format) in repos.byName then Some(repos.byId[repos.byName[(name, format)]]) else None
    {
      r := if (name, format) in repos.byName then Some(repos.byId[repos.byName[(name, format)]]) else None;
    }

    /** The paths of the rows that satisfy the query's condition, in whatever order they are stored. */
    method SelectPaths(repoId: string, prefix: string) returns (paths: seq<string>)
      ensures Elems(paths) == MatchingPaths(dialect, rows, repoId, prefix)
      ensures forall i, j :: 0 <= i < j < |paths| ==> paths[i] != paths[j]
    {
      paths := [];
      var scan := rows.Keys;
      while scan != {}
        invariant scan <= rows.Keys
        invariant forall p :: p in paths <==>
                    (repoId, p) in rows.Keys - scan && MatchesPrefix(dialect, prefix, p)
        invariant forall i, j :: 0 <= i < j < |paths| ==> paths[i] != paths[j]
      {
        var k :| k in scan;
        scan := scan - {k};
        if k.0 == repoId && MatchesPrefix(dialect, prefix, k.1) { paths := paths + [k.1]; }
      }
    }

    method ListArtifactsByPrefix(repoId: string, prefix: string, fails: bool) returns (out: Result<seq<Artifact>>)
      ensures out == if fails then Err(IoFailure) else Ok(ListByPrefix(dialect, rows, repoId, prefix))
    {
      if fails { return Err(IoFailure); }
      var paths := SelectPaths(repoId, prefix);
      paths := SortStrings(paths);
      assert forall i :: 0 <= i < |paths| ==> paths[i] in paths;
      out := Ok(Fetch(rows, repoId, paths));
    }

    method ResolveArtifact(repoId: string, path: string, f: Outage) returns (r: Result<Artifact>)
      requires Valid()
      ensures r == ResolveUnder(repos, rows, repoId, path, f)
    {
      r := GetArtifact(repoId, path, f.direct);
      if r.Ok? {
        DirectHitWins(rows, repoId, Chain(repos, repoId, f.members), path);
        return;
      }
      if r.error != NotFound { return; }
      if f.parent { return Err(IoFailure); }
      if repoId !in repos.byId || !repos.byId[repoId].kind.Group? {
        DirectHitWins(rows, repoId, Chain(repos, repoId, f.members), path);
        return Err(NotFound);
      }
      var art := AskMembers(repoId, repos.byId[repoId].members, repos.byId[repoId].format, path, f.members);
      r := if art.Some? then Ok(art.value) else Err(NotFound);
    }

    /** The loop of the point lookup over a group's members. */
    method AskMembers(ghost repoId: string, members: seq<string>, format: string, path: string, down: set<nat>)
      returns (art: Option<Artifact>)
      requires Valid() && LookUp(rows, repoId, path).None?
      ensures art == FirstHit(rows, [repoId] + MemberIds(repos, members, format, down), path)
    {
      assert [repoId][..0] == [] && members[..0] == [] && [repoId] + [] == [repoId];
      for n := 0 to |members|
        invariant FirstHit(rows, [repoId] + MemberIds(repos, members[..n], format, down), path) == None
      {
        ghost var before := [repoId] + MemberIds(repos, members[..n], format, down);
        NextMember(repos, repoId, members, format, down, n);
        var member := Get(members[n], format);
        if member.Some? {
          var found := GetArtifact(member.value.id, path, n in down);
          LastAdded(before, member.value.id);
          Takes(before, [], member.value.id);
          if found.Ok? {
            HitIsFinal(repos, rows, repoId, members, format, down, path, n + 1);
            return Some(found.value);
          }
        }
      }
      assert members[..|members|] == members;
      art := None;
    }

    method ResolveArtifactsByPrefix(repoId: string, prefix: string, f: Outage) returns (r: Result<seq<Artifact>>)
      requires Valid()
      ensures r == ListUnder(dialect, repos, rows, repoId, prefix, f)
    {
      var direct := ListArtifactsByPrefix(repoId, prefix, f.direct);
      if direct.Err? || f.parent { return Err(IoFailure); }
      DirectListFirst(dialect, rows, repoId, prefix);
      if repoId !in repos.byId || !repos.byId[repoId].kind.Group? { return direct; }
      var members, format := repos.byId[repoId].members, repos.byId[repoId].format;
      var combined, seen := AddUnseen([], {}, direct.value);
      combined := AddMembers(combined, seen, repoId, members, format, prefix, f.members);
      r := Ok(combined);
    }

    /** The loop of the list lookup over a group's members. */
    method AddMembers(start: seq<Artifact>, startSeen: set<string>, ghost repoId: string, members: seq<string>,
                      format: string, prefix: string, down: set<nat>) returns (combined: seq<Artifact>)
      requires Valid()
      requires start == Combined(dialect, rows, [repoId], prefix) && startSeen == PathsOf(start)
      ensures combined == Combined(dialect, rows, [repoId] + MemberIds(repos, members, format, down), prefix)
    {
      combined := start;
      var seen := startSeen;
      assert members[..0] == [] && [repoId] + [] == [repoId];
      for n := 0 to |members|
        invariant combined == CombinedUpTo(dialect, repos, rows, repoId, members[..n], format, prefix, down)
        invariant seen == PathsOf(combined)
      {
        MemberStep(dialect, repos, rows, repoId, members, format, prefix, down, n);
        var member := Get(members[n], format);
        if member.Some? {
          var items := ListArtifactsByPrefix(member.value.id, prefix, n in down);
          if items.Ok? { combined, seen := AddUnseen(combined, seen, items.value); }
        }
      }
      assert members[..|members|] == members;
    }
  }

  ghost function CombinedUpTo(d: Dialect, repos: Repos, rows: Rows, repoId: string, members: seq<string>,
                              format: string, prefix: string, down: set<nat>): seq<Artifact>
  {
    Combined(d, rows, [repoId] + MemberIds(repos, members, format, down), prefix)
  }

  lemma NextMember(repos: Repos, repoId: string, members: seq<string>, format: string, down: set<nat>, n: nat)
    requires n < |members|
    ensures var before := [repoId] + MemberIds(repos, members[..n], format, down);
            [repoId] + MemberIds(repos, members[..n + 1], format, down) ==
            if (members[n], format) in repos.byName && n !in down
            then before + [repos.byName[(members[n], format)]] else before
  {
    TakeTwice(members, n);
  }

  lemma MemberStep(d: Dialect, repos: Repos, rows: Rows, repoId: string, members: seq<string>,
                   format: string, prefix: string, down: set<nat>, n: nat)
    requires n < |members|
    ensures var before := CombinedUpTo(d, repos, rows, repoId, members[..n], format, prefix, down);
            CombinedUpTo(d, repos, rows, repoId, members[..n + 1], format, prefix, down) ==
            if (members[n], format) in repos.byName && n !in down
            then AppendUnseen(before, ListByPrefix(d, rows, repos.byName[(members[n], format)], prefix))
            else before
  {
    NextMember(repos, repoId, members, format, down, n);
    if (members[n], format) in repos.byName {
      var chain := [repoId] + MemberIds(repos, members[..n], format, down);
      var id := repos.byName[(members[n], format)];
      LastAdded(chain, id);
      Takes(chain, [], id);
    }
  }

  /** The inner loop of the list lookup. */
  method AddUnseen(start: seq<Artifact>, startSeen: set<string>, items: seq<Artifact>)
    returns (combined: seq<Artifact>, seen: set<string>)
    requires startSeen == PathsOf(start)
    ensures combined == AppendUnseen(start, items)
    ensures seen == PathsOf(combined)
  {
    combined, seen := start, startSeen;
    for i := 0 to |items|
      invariant combined == AppendUnseen(start, items[..i])
      invariant seen == PathsOf(combined)
    {
      assert items[..i + 1][..i] == items[..i];
      if items[i].path !in seen {
        PathsOfAppend(combined, items[i]);
        seen := seen + {items[i].path};
        combined := combined + [items[i]];
      }
    }
    assert items[..|items|] == items;
  }

  lemma PathsOfAppend(items: seq<Artifact>, a: Artifact)
    ensures PathsOf(items + [a]) == PathsOf(items) + {a.path}
  {
    var more := items + [a];
    forall p | p in PathsOf(items) + {a.path} ensures p in PathsOf(more) {
      if p in PathsOf(items) {
        var i :| 0 <= i < |items| && items[i].path == p;
        assert more[i].path == p;
      } else {
        assert more[|items|].path == p;
      }
    }
  }

  lemma {:induction false} DirectHitWins(rows: Rows, repoId: string, chain: seq<string>, path: string)
    requires chain != [] && chain[0] == repoId
    requires |chain| == 1 || LookUp(rows, repoId, path).Some?
    ensures FirstHit(rows, chain, path) == LookUp(rows, repoId, path)
  {
    if |chain| > 1 {
      DirectHitWins(rows, repoId, chain[..|chain| - 1], path);
    } else {
      assert chain[..0] == [];
    }
  }

  /** A hit among the first members stays the first hit of the whole chain. */
  lemma {:induction false} HitStays(rows: Rows, chain: seq<string>, longer: seq<string>, path: string)
    requires chain <= longer && FirstHit(rows, chain, path).Some?
    ensures FirstHit(rows, longer, path) == FirstHit(rows, chain, path)
  {
    if |longer| > |chain| {
      HitStays(rows, chain, longer[..|longer| - 1], path);
    } else {
      assert longer == chain;
    }
  }

  lemma {:induction false} MemberIdsPrefix(repos: Repos, members: seq<string>, format: string, down: set<nat>, n: nat)
    requires n <= |members|
    ensures MemberIds(repos, members[..n], format, down) <= MemberIds(repos, members, format, down)
  {
    if n < |members| {
      MemberIdsPrefix(repos, members[..|members| - 1], format, down, n);
      assert members[..|members| - 1][..n] == members[..n];
    } else {
      assert members[..n] == members;
    }
  }

  lemma HitIsFinal(repos: Repos, rows: Rows, repoId: string, members: seq<string>, format: string, down: set<nat>,
                   path: string, n: nat)
    requires n <= |members|
    requires FirstHit(rows, [repoId] + MemberIds(repos, members[..n], format, down), path).Some?
    ensures FirstHit(rows, [repoId] + MemberIds(repos, members, format, down), path) ==
            FirstHit(rows, [repoId] + MemberIds(repos, members[..n], format, down), path)
  {
    MemberIdsPrefix(repos, members, format, down, n);
    HitStays(rows, [repoId] + MemberIds(repos, members[..n], format, down),
             [repoId] + MemberIds(repos, members, format, down), path);
  }

  /** What one repository's listing holds. */
  lemma ListHolds(d: Dialect, rows: Rows, repoId: string, prefix: string, a: Artifact)
    requires ValidRows(rows)
    ensures a in ListByPrefix(d, rows, repoId, prefix) <==>
            MatchesPrefix(d, prefix, a.path) && LookUp(rows, repoId, a.path) == Some(a)
  {
    var paths := Sorted(MatchingPaths(d, rows, repoId, prefix));
    var items := ListByPrefix(d, rows, repoId, prefix);
    if a in items {
      var i :| 0 <= i < |items| && items[i] == a;
      assert paths[i] in paths;
    }
    if MatchesPrefix(d, prefix, a.path) && LookUp(rows, repoId, a.path) == Some(a) {
      assert (repoId, a.path) in rows && (repoId, a.path).1 == a.path;
      assert a.path in paths;
      var i :| 0 <= i < |paths| && paths[i] == a.path;
      assert items[i] == a;
    }
  }

  ghost predicate NoRepeatedPath(items: seq<Artifact>) {
    forall i, j :: 0 <= i < j < |items| ==> items[i].path != items[j].path
  }

  lemma ListHasNoRepeats(d: Dialect, rows: Rows, repoId: string, prefix: string)
    requires ValidRows(rows)
    ensures NoRepeatedPath(ListByPrefix(d, rows, repoId, prefix))
  {
    var paths := Sorted(MatchingPaths(d, rows, repoId, prefix));
    var items := ListByPrefix(d, rows, repoId, prefix);
    forall i, j | 0 <= i < j < |items| ensures items[i].path != items[j].path {
      assert paths[i] in paths && paths[j] in paths;
      assert (repoId, paths[i]) in rows && (repoId, paths[j]) in rows;
      assert items[i].path == paths[i] && items[j].path == paths[j];
      if paths[i] == paths[j] { IncreasingDistinct(paths, i, j); }
    }
  }

  lemma LastPathIsNew(items: seq<Artifact>)
    requires NoRepeatedPath(items) && items != []
    ensures items[|items| - 1].path !in PathsOf(items[..|items| - 1])
  {
    var front := items[..|items| - 1];
    forall i | 0 <= i < |front| ensures front[i].path != items[|items| - 1].path {
      assert front[i] == items[i];
    }
  }

  lemma OneMoreRow(items: seq<Artifact>, a: Artifact)
    requires NoRepeatedPath(items) && a.path !in PathsOf(items)
    ensures NoRepeatedPath(items + [a])
  {
    forall i, j | 0 <= i < j < |items + [a]| ensures (items + [a])[i].path != (items + [a])[j].path {
      if j == |items| { assert (items + [a])[i] == items[i]; }
    }
  }

  lemma {:induction false} AppendUnseenPaths(start: seq<Artifact>, items: seq<Artifact>)
    requires NoRepeatedPath(start)
    ensures NoRepeatedPath(AppendUnseen(start, items))
    ensures PathsOf(AppendUnseen(start, items)) == PathsOf(start) + PathsOf(items)
  {
    if items != [] {
      var front, last := items[..|items| - 1], items[|items| - 1];
      var before := AppendUnseen(start, front);
      AppendUnseenPaths(start, front);
      PathsOfAppend(front, last);
      assert items == front + [last];
      if last.path !in PathsOf(before) {
        PathsOfAppend(before, last);
        OneMoreRow(before, last);
      }
    }
  }

  /** Appending unseen rows adds exactly those whose path was not there yet. */
  lemma {:induction false} AppendUnseenHolds(start: seq<Artifact>, items: seq<Artifact>, a: Artifact)
    requires NoRepeatedPath(start) && NoRepeatedPath(items)
    ensures var all := AppendUnseen(start, items);
            && NoRepeatedPath(all)
            && (a in all <==> a in start || (a in items && a.path !in PathsOf(start)))
            && PathsOf(all) == PathsOf(start) + PathsOf(items)
  {
    AppendUnseenPaths(start, items);
    if items != [] {
      var front, last := items[..|items| - 1], items[|items| - 1];
      AppendUnseenHolds(start, front, a);
      LastPathIsNew(items);
      assert items == front + [last];
    }
  }

  lemma {:induction false} FirstHitPath(rows: Rows, chain: seq<string>, path: string)
    requires ValidRows(rows)
    ensures FirstHit(rows, chain, path).Some? ==> FirstHit(rows, chain, path).value.path == path
  {
    if chain != [] { FirstHitPath(rows, chain[..|chain| - 1], path); }
  }

  /** The listing along a chain holds, for each matching path, its first hit and nothing else. */
  lemma {:induction false} CombinedHolds(d: Dialect, rows: Rows, chain: seq<string>, prefix: string, a: Artifact)
    requires ValidRows(rows)
    ensures var all := Combined(d, rows, chain, prefix);
            && NoRepeatedPath(all)
            && (a in all <==> MatchesPrefix(d, prefix, a.path) && FirstHit(rows, chain, a.path) == Some(a))
            && (a.path in PathsOf(all) <==>
                  MatchesPrefix(d, prefix, a.path) && FirstHit(rows, chain, a.path).Some?)
  {
    if chain != [] {
      var n := |chain| - 1;
      var start := Combined(d, rows, chain[..n], prefix);
      var items := ListByPrefix(d, rows, chain[n], prefix);
      CombinedHolds(d, rows, chain[..n], prefix, a);
      ListHolds(d, rows, chain[n], prefix, a);
      ListHasNoRepeats(d, rows, chain[n], prefix);
      AppendUnseenHolds(start, items, a);
      ListedPaths(d, rows, chain[n], prefix, a.path);
    }
  }

  lemma ListedPaths(d: Dialect, rows: Rows, repoId: string, prefix: string, path: string)
    requires ValidRows(rows)
    ensures path in PathsOf(ListByPrefix(d, rows, repoId, prefix)) <==>
            MatchesPrefix(d, prefix, path) && LookUp(rows, repoId, path).Some?
  {
    var items := ListByPrefix(d, rows, repoId, prefix);
    if path in PathsOf(items) {
      var i :| 0 <= i < |items| && items[i].path == path;
      ListHolds(d, rows, repoId, prefix, items[i]);
    }
    if MatchesPrefix(d, prefix, path) && LookUp(rows, repoId, path).Some? {
      var a := LookUp(rows, repoId, path).value;
      ListHolds(d, rows, repoId, prefix, a);
      var i :| 0 <= i < |items| && items[i] == a;
      assert items[i].path == path;
    }
  }

  /**
   The two lookups agree, whatever queries fail: a list is returned unless one of the
   group's own queries failed, and it holds an artifact exactly when its path matches the
   pattern and the point lookup of that path, under the same outage, returns this artifact.
   */
  lemma LookupsAgree(d: Dialect, repos: Repos, rows: Rows, repoId: string, prefix: string, a: Artifact, f: Outage)
    requires ValidRows(rows)
    ensures var list := ListUnder(d, repos, rows, repoId, prefix, f);
            && (list.Ok? <==> !f.direct && !f.parent)
            && (list.Ok? ==>
                  && NoRepeatedPath(list.value)
                  && (a in list.value <==>
                        MatchesPrefix(d, prefix, a.path) && ResolveUnder(repos, rows, repoId, a.path, f) == Ok(a)))
  {
    CombinedHolds(d, rows, Chain(repos, repoId, f.members), prefix, a);
  }

  lemma WithoutOutage(d: Dialect, repos: Repos, rows: Rows, repoId: string, prefix: string, path: string)
    ensures ListUnder(d, repos, rows, repoId, prefix, NO_OUTAGE) == Ok(ResolveList(d, repos, rows, repoId, prefix))
    ensures var r, a := ResolveUnder(repos, rows, repoId, path, NO_OUTAGE), Resolve(repos, rows, repoId, path);
            r == if a.Some? then Ok(a.value) else Err(NotFound)
  {
  }

  /**
   For every database the list is exactly the resolvable artifacts under the literal
   prefix, if and only if the prefix is plain for the database's `LIKE`.
   */
  lemma ListIsLiteralIffPlain(d: Dialect, prefix: string)
    ensures Plain(d, prefix) <==>
            forall repos: Repos, rows: Rows, repoId: string, a: Artifact | ValidRows(rows) ::
              a in ResolveList(d, repos, rows, repoId, prefix) <==>
              HasPrefix(a.path, prefix) && Resolve(repos, rows, repoId, a.path) == Some(a)
  {
    if Plain(d, prefix) {
      forall repos: Repos, rows: Rows, repoId: string, a: Artifact | ValidRows(rows)
        ensures a in ResolveList(d, repos, rows, repoId, prefix) <==>
                HasPrefix(a.path, prefix) && Resolve(repos, rows, repoId, a.path) == Some(a)
      {
        LookupsAgree(d, repos, rows, repoId, prefix, a, NO_OUTAGE);
        WithoutOutage(d, repos, rows, repoId, prefix, a.path);
        PlainIsLiteral(d, prefix, a.path);
      }
    } else {
      LiteralIffPlain(d, prefix);
      var path :| MatchesPrefix(d, prefix, path) != HasPrefix(path, prefix);
      var a := Artifact("", "r", path, "", 0, "", "", 0);
      var rows: Rows := map[("r", path) := a];
      var repos := Repos(map[], map[]);
      assert ["r"][..0] == [];
      assert FirstHit(rows, ["r"][..0], path) == None;
      assert Resolve(repos, rows, "r", path) == Some(a);
      LookupsAgree(d, repos, rows, "r", prefix, a, NO_OUTAGE);
      WithoutOutage(d, repos, rows, "r", prefix, path);
      assert ValidRows(rows);
    }
  }

  lemma DirectListFirst(d: Dialect, rows: Rows, repoId: string, prefix: string)
    requires ValidRows(rows)
    ensures Combined(d, rows, [repoId], prefix) == ListByPrefix(d, rows, repoId, prefix)
    ensures AppendUnseen([], ListByPrefix(d, rows, repoId, prefix)) == ListByPrefix(d, rows, repoId, prefix)
  {
    assert [repoId][..0] == [];
    ListHasNoRepeats(d, rows, repoId, prefix);
    AppendDistinct(ListByPrefix(d, rows, repoId, prefix));
  }

  lemma {:induction false} AppendDistinct(items: seq<Artifact>)
    requires NoRepeatedPath(items)
    ensures AppendUnseen([], items) == items
  {
    if items != [] {
      var n := |items| - 1;
      var before := items[..n];
      assert forall i :: 0 <= i < n ==> before[i] == items[i];
      AppendDistinct(before);
      LastPathIsNew(items);
      assert AppendUnseen([], items) == before + [items[n]] == items;
    }
  }
}
