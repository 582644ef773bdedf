/** The tag list against the bindings: when `GET /v2/<name>/tags/list` is exactly the bound tags. */
module DockerTags {
  import opened Text
  import opened Sequences
  import opened Order
  import opened Like
  import opened Cas
  import opened Artifacts
  import opened DockerManifest
  import DockerUpload

  ghost predicate Bound(rows: Rows, repoId: string, name: string, tag: string) {
    !IsDigestRef(tag) && (repoId, ManifestPath(name, tag)) in rows
  }

  /** The rows that requests with valid names leave: manifest bindings, and lower-case blob rows. */
  ghost predicate DockerRows(rows: Rows, repoId: string) {
    forall path :: (repoId, path) in rows ==>
      NoUpper(path) || exists n, r :: DockerUpload.ValidName(n) && path == ManifestPath(n, r)
  }

  lemma {:induction false} TagsInHolds(prefix: string, items: seq<Artifact>, tag: string)
    ensures tag in TagsIn(prefix, items) <==>
            !IsDigestRef(tag) && exists a :: a in items && TrimPrefix(a.path, prefix) == tag
  {
    if items != [] {
      var front, last := items[..|items| - 1], items[|items| - 1];
      TagsInHolds(prefix, front, tag);
      assert items == front + [last];
      if TrimPrefix(last.path, prefix) == tag { assert last in items; }
    }
  }

  /** In a repository that is no group, the list holds the trimmed paths of the matching rows. */
  lemma TagsListHolds(d: Dialect, repos: Repos, rows: Rows, repoId: string, name: string, tag: string)
    requires ValidRows(rows) && repoId in repos.byId && !repos.byId[repoId].kind.Group?
    ensures var prefix := ManifestPrefix(name);
            tag in TagsList(d, repos, rows, repoId, name) <==>
            !IsDigestRef(tag) && exists path ::
              (repoId, path) in rows && MatchesPrefix(d, prefix, path) && TrimPrefix(path, prefix) == tag
  {
    var prefix := ManifestPrefix(name);
    var items := ListByPrefix(d, rows, repoId, prefix);
    DirectListFirst(d, rows, repoId, prefix);
    TagsInHolds(prefix, items, tag);
    if tag in TagsIn(prefix, items) {
      var a :| a in items && TrimPrefix(a.path, prefix) == tag;
      ListHolds(d, rows, repoId, prefix, a);
      assert (repoId, a.path) in rows;
    }
    if path :| (repoId, path) in rows && MatchesPrefix(d, prefix, path) && TrimPrefix(path, prefix) == tag {
      var a := rows[(repoId, path)];
      assert (a.repoId, a.path) == (repoId, path);
      ListHolds(d, rows, repoId, prefix, a);
    }
  }

  lemma MatchingRowIsListed(d: Dialect, repos: Repos, rows: Rows, repoId: string, name: string, path: string)
    requires ValidRows(rows) && repoId in repos.byId && !repos.byId[repoId].kind.Group?
    requires (repoId, path) in rows && MatchesPrefix(d, ManifestPrefix(name), path)
    requires !IsDigestRef(TrimPrefix(path, ManifestPrefix(name)))
    ensures TrimPrefix(path, ManifestPrefix(name)) in TagsList(d, repos, rows, repoId, name)
  {
    TagsListHolds(d, repos, rows, repoId, name, TrimPrefix(path, ManifestPrefix(name)));
  }

  lemma NamePrefixShape(d: Dialect, name: string)
    requires DockerUpload.ValidName(name)
    ensures PercentFree(d, ManifestPrefix(name)) && NoUpper(ManifestPrefix(name))
    ensures forall i :: 0 <= i < |ManifestPrefix(name)| && ManifestPrefix(name)[i] == '_' ==>
              5 <= i < 5 + |name| && name[i - 5] == '_'
  {
    var p := ManifestPrefix(name);
    assert p == "refs/" + name + SEPARATOR;
    forall i | 0 <= i < |p|
      ensures p[i] != '%' && !Escapes(d, p[i]) && !IsUpper(p[i])
      ensures p[i] == '_' ==> 5 <= i < 5 + |name| && name[i - 5] == '_'
    {
      if 5 <= i < 5 + |name| {
        assert p[i] == name[i - 5] && DockerUpload.NameChar(name[i - 5]);
      } else if i < 5 {
        assert p[i] == "refs/"[i];
      } else {
        assert p[i] == SEPARATOR[i - 5 - |name|];
      }
    }
  }

  lemma FoldingIsLiteral(d: Dialect, prefix: string, path: string)
    requires PercentFree(d, prefix) && '_' !in prefix && NoUpper(prefix) && MatchesPrefix(d, prefix, path)
    requires forall i :: 0 <= i < |prefix| && i < |path| ==> !IsUpper(path[i])
    ensures HasPrefix(path, prefix)
  {
    WithoutPercent(d, prefix, path);
    forall i | 0 <= i < |prefix| ensures path[i] == prefix[i] { assert SameChar(d, prefix[i], path[i]); }
    assert path[..|prefix|] == prefix;
  }

  /** If a manifest path starts with the letters of a longer name's pattern, that name holds a separator of its own. */
  lemma LongerNameHoldsSeparator(name: string, n: string)
    requires Routable(name) && |n| < |name|
    ensures ManifestPrefix(name)[..|ManifestPrefix(n)|] != ManifestPrefix(n)
  {
    var p, head := ManifestPrefix(name), ManifestPrefix(n);
    if p[..|head|] == head {
      var rest := p[|head|..];
      SplitAt(p, |head|);
      assert ("refs/" + name + SEPARATOR)[5..] == name + SEPARATOR + "";
      assert ("refs/" + n + SEPARATOR + rest)[5..] == n + SEPARATOR + rest;
      SeparatorEarlier(n, rest, name, "");
    }
  }

  /** A manifest path whose head matches another image's prefix up to case has that prefix. */
  lemma HeadIsLiteral(d: Dialect, name: string, n: string, r: string)
    requires DockerUpload.ValidName(name) && Routable(name) && '_' !in name && DockerUpload.ValidName(n)
    requires MatchesPrefix(d, ManifestPrefix(name), ManifestPath(n, r))
    ensures HasPrefix(ManifestPath(n, r), ManifestPrefix(name))
  {
    var p, path, head := ManifestPrefix(name), ManifestPath(n, r), ManifestPrefix(n);
    NamePrefixShape(d, name);
    NamePrefixShape(d, n);
    WithoutPercent(d, p, path);
    assert forall i :: 0 <= i < |head| ==> path[i] == head[i];
    if |n| < |name| {
      forall i | 0 <= i < |head| ensures p[i] == head[i] { assert SameChar(d, p[i], path[i]); }
      LongerNameHoldsSeparator(name, n);
    } else {
      FoldingIsLiteral(d, p, path);
    }
  }

  lemma NoFalseMatch(d: Dialect, rows: Rows, repoId: string, name: string, path: string)
    requires DockerRows(rows, repoId) && (repoId, path) in rows
    requires DockerUpload.ValidName(name) && Routable(name) && '_' !in name
    requires MatchesPrefix(d, ManifestPrefix(name), path)
    ensures HasPrefix(path, ManifestPrefix(name))
  {
    NamePrefixShape(d, name);
    if NoUpper(path) {
      FoldingIsLiteral(d, ManifestPrefix(name), path);
    } else {
      var n, r :| DockerUpload.ValidName(n) && path == ManifestPath(n, r);
      HeadIsLiteral(d, name, n, r);
    }
  }

  /** The bound tags of an image are always listed. */
  lemma BoundIsListed(d: Dialect, repos: Repos, rows: Rows, repoId: string, name: string, tag: string)
    requires ValidRows(rows) && repoId in repos.byId && !repos.byId[repoId].kind.Group?
    requires DockerUpload.ValidName(name) && Bound(rows, repoId, name, tag)
    ensures tag in TagsList(d, repos, rows, repoId, name)
  {
    var p := ManifestPrefix(name);
    var path := ManifestPath(name, tag);
    NamePrefixShape(d, name);
    assert path[..|p|] == p && path[|p|..] == tag;
    FindsLiteralMatches(d, p, path);
    MatchingRowIsListed(d, repos, rows, repoId, name, path);
  }

  lemma TrimmedIsTag(name: string, path: string)
    requires HasPrefix(path, ManifestPrefix(name))
    ensures path == ManifestPath(name, TrimPrefix(path, ManifestPrefix(name)))
  {
    SplitAt(path, |ManifestPrefix(name)|);
  }

  /** Among the repository's rows the pattern matches only what begins with the prefix. */
  ghost predicate LiteralMatches(d: Dialect, rows: Rows, repoId: string, prefix: string) {
    forall path :: (repoId, path) in rows && MatchesPrefix(d, prefix, path) ==> HasPrefix(path, prefix)
  }

  /** Then nothing but bound tags is listed, in ascending order and each once. */
  lemma ListedIsBound(d: Dialect, repos: Repos, rows: Rows, repoId: string, name: string, tag: string)
    requires ValidRows(rows) && repoId in repos.byId && !repos.byId[repoId].kind.Group?
    requires LiteralMatches(d, rows, repoId, ManifestPrefix(name))
    requires tag in TagsList(d, repos, rows, repoId, name)
    ensures Bound(rows, repoId, name, tag)
  {
    var p := ManifestPrefix(name);
    TagsListHolds(d, repos, rows, repoId, name, tag);
    var path :| (repoId, path) in rows && MatchesPrefix(d, p, path) && TrimPrefix(path, p) == tag;
    TrimmedIsTag(name, path);
  }

  lemma TrimmedLt(prefix: string, a: string, b: string)
    requires HasPrefix(a, prefix) && HasPrefix(b, prefix) && Lt(a, b)
    ensures Lt(TrimPrefix(a, prefix), TrimPrefix(b, prefix))
  {
    SplitAt(a, |prefix|);
    SplitAt(b, |prefix|);
    LtSamePrefix(prefix, a[|prefix|..], b[|prefix|..]);
  }

  lemma {:induction false} TagsAscend(prefix: string, items: seq<Artifact>)
    requires forall i :: 0 <= i < |items| ==> HasPrefix(items[i].path, prefix)
    requires forall i, j :: 0 <= i < j < |items| ==> Lt(items[i].path, items[j].path)
    ensures Increasing(TagsIn(prefix, items))
  {
    if items != [] {
      var front, last := items[..|items| - 1], items[|items| - 1];
      TagsAscend(prefix, front);
      forall tag | tag in TagsIn(prefix, front) ensures Lt(tag, TrimPrefix(last.path, prefix)) {
        TagsInHolds(prefix, front, tag);
        var i :| 0 <= i < |front| && TrimPrefix(front[i].path, prefix) == tag;
        TrimmedLt(prefix, items[i].path, last.path);
      }
    }
  }

  lemma TagsListAscends(d: Dialect, repos: Repos, rows: Rows, repoId: string, name: string)
    requires ValidRows(rows) && repoId in repos.byId && !repos.byId[repoId].kind.Group?
    requires LiteralMatches(d, rows, repoId, ManifestPrefix(name))
    ensures Increasing(TagsList(d, repos, rows, repoId, name))
  {
    var prefix := ManifestPrefix(name);
    var paths, items := Sorted(MatchingPaths(d, rows, repoId, prefix)), ListByPrefix(d, rows, repoId, prefix);
    DirectListFirst(d, rows, repoId, prefix);
    forall i | 0 <= i < |items| ensures items[i].path == paths[i] && HasPrefix(items[i].path, prefix) {
      assert paths[i] in paths;
    }
    TagsAscend(prefix, items);
  }

  /** On PostgreSQL a name without underscore makes a pattern without wildcards. */
  lemma PostgresMatchesLiterally(rows: Rows, repoId: string, name: string)
    requires DockerUpload.ValidName(name) && '_' !in name
    ensures LiteralMatches(Postgres, rows, repoId, ManifestPrefix(name))
  {
    var p := ManifestPrefix(name);
    NamePrefixShape(Postgres, name);
    forall path | MatchesPrefix(Postgres, p, path) ensures HasPrefix(path, p) { PlainIsLiteral(Postgres, p, path); }
  }

  /** On either database, over rows that requests with valid names leave. */
  lemma DockerRowsMatchLiterally(d: Dialect, rows: Rows, repoId: string, name: string)
    requires DockerRows(rows, repoId)
    requires DockerUpload.ValidName(name) && Routable(name) && '_' !in name
    ensures LiteralMatches(d, rows, repoId, ManifestPrefix(name))
  {
    forall path | (repoId, path) in rows && MatchesPrefix(d, ManifestPrefix(name), path)
      ensures HasPrefix(path, ManifestPrefix(name))
    {
      NoFalseMatch(d, rows, repoId, name, path);
    }
  }

  // ---------------------------------------------------------------- groups

  /** The listed tags are those that a GET finds, in repositories of all kinds and whatever members cannot be asked. */
  ghost predicate ListsWhatResolves(d: Dialect, repos: Repos, rows: Rows, repoId: string, name: string, f: Outage) {
    var answer := AnswerTags(d, repos, rows, repoId, name, f);
    && answer.Some?
    && forall tag :: tag in answer.value <==>
         !IsDigestRef(tag) && ResolveUnder(repos, rows, repoId, ManifestPath(name, tag), f).Ok?
  }

  lemma PlainListsWhatResolves(d: Dialect, repos: Repos, rows: Rows, repoId: string, name: string, f: Outage)
    requires ValidRows(rows) && !f.direct && !f.parent
    requires DockerUpload.ValidName(name) && Plain(d, ManifestPrefix(name))
    ensures ListsWhatResolves(d, repos, rows, repoId, name, f)
  {
    var p := ManifestPrefix(name);
    var items := ListUnder(d, repos, rows, repoId, p, f).value;
    forall tag ensures tag in TagsIn(p, items) <==>
                       !IsDigestRef(tag) && ResolveUnder(repos, rows, repoId, ManifestPath(name, tag), f).Ok?
    {
      TagsInHolds(p, items, tag);
      if a :| a in items && TrimPrefix(a.path, p) == tag {
        LookupsAgree(d, repos, rows, repoId, p, a, f);
        PlainIsLiteral(d, p, a.path);
        TrimmedIsTag(name, a.path);
      }
      if ResolveUnder(repos, rows, repoId, ManifestPath(name, tag), f).Ok? {
        var a := ResolveUnder(repos, rows, repoId, ManifestPath(name, tag), f).value;
        FirstHitPath(rows, Chain(repos, repoId, f.members), ManifestPath(name, tag));
        LookupsAgree(d, repos, rows, repoId, p, a, f);
        Joins(p, tag);
        PlainIsLiteral(d, p, a.path);
      }
    }
  }

  lemma PlainNameIff(d: Dialect, name: string)
    requires DockerUpload.ValidName(name)
    ensures Plain(d, ManifestPrefix(name)) <==> d.Postgres? && '_' !in name
  {
    var p := ManifestPrefix(name);
    NamePrefixShape(d, name);
    assert p[0] == 'r' && IsLower(p[0]);
    if i :| 0 <= i < |name| && name[i] == '_' { assert p[5 + i] == '_'; }
  }

  /** One row under a path that the pattern matches by mistake. */
  lemma DecoyIsListed(d: Dialect, name: string) returns (repos: Repos, rows: Rows)
    requires DockerUpload.ValidName(name) && !Plain(d, ManifestPrefix(name))
    ensures ValidRepos(repos) && ValidRows(rows) && !ListsWhatResolves(d, repos, rows, "r", name, NO_OUTAGE)
  {
    var p := ManifestPrefix(name);
    var path := Decoy(d, p + "%");
    DecoyFools(d, p);
    NamePrefixShape(d, name);
    WithoutPercent(d, p, path);
    DecoyIsNoDigest(d, name, path);
    var a := Artifact("", "r", path, "", 0, "", "", 0);
    rows := map[("r", path) := a];
    repos := Repos(map["r" := Repository("r", "r", "docker", Hosted, [])], map[("r", "docker") := "r"]);
    MatchingRowIsListed(d, repos, rows, "r", name, path);
    AnswerIsTagsList(d, repos, rows, "r", name, NO_OUTAGE);
    DirectHitWins(rows, "r", Chain(repos, "r", {}), ManifestPath(name, path));
  }

  lemma DecoyIsNoDigest(d: Dialect, name: string, path: string)
    requires path != "" && SameChar(d, ManifestPrefix(name)[0], path[0])
    ensures !IsDigestRef(path)
  {
    PrefixChar(path, ALGORITHM, 0);
  }

  /**
   For a valid image name, in every repository, groups included, and whatever rows it has:
   the tags listed are exactly those that a GET finds, if and only if the database is
   PostgreSQL and the name has no underscore.
   */
  lemma ListsWhatResolvesIff(d: Dialect, name: string)
    requires DockerUpload.ValidName(name)
    ensures d.Postgres? && '_' !in name <==>
            forall repos: Repos, rows: Rows, repoId: string, f: Outage
              | ValidRepos(repos) && ValidRows(rows) && !f.direct && !f.parent ::
              ListsWhatResolves(d, repos, rows, repoId, name, f)
  {
    PlainNameIff(d, name);
    if Plain(d, ManifestPrefix(name)) {
      forall repos: Repos, rows: Rows, repoId: string, f: Outage
        | ValidRepos(repos) && ValidRows(rows) && !f.direct && !f.parent
        ensures ListsWhatResolves(d, repos, rows, repoId, name, f)
      {
        PlainListsWhatResolves(d, repos, rows, repoId, name, f);
      }
    } else {
      var repos, rows := DecoyIsListed(d, name);
    }
  }
}
