/**
 The tag list over runs of requests: exactly when `GET /v2/<name>/tags/list` answers with
 the tags that the requests have bound, and the runs after which it does not.
 */
module DockerTagRuns {
  import opened Text
  import opened Storage
  import opened Order
  import opened Cas
  import opened Like
  import opened Artifacts
  import opened Wrappers
  import opened Registry
  import opened DockerRuns
  import opened DockerTags
  import M = DockerManifest
  import DockerProxy
  import DockerRoute
  import DockerUpload

  // ---------------------------------------------------------------- the rows that requests leave

  /** Names given when an upload is finished pass the check that the handler does not make. */
  predicate ValidUploadNames(rs: seq<Request>) {
    forall i :: 0 <= i < |rs| && rs[i].Upload? && rs[i].u.Finish? ==> DockerUpload.ValidName(rs[i].u.name)
  }

  lemma StepKeepsValidRows(s: State, repoId: string, r: Request)
    requires ValidRows(s.world.rows)
    ensures ValidRows(Handle(s, repoId, r).world.rows)
  {
    match r
    case Upload(u) => UploadKeepsValidRows(s, repoId, u);
    case Manifest(m) => ManifestKeepsValidRows(s.world, repoId, m);
    case DeleteBlob(_, _, _) =>
    case _ => FetchKeepsValidRows(s, repoId, r);
  }

  lemma UploadKeepsValidRows(s: State, repoId: string, u: DockerUpload.Request)
    requires ValidRows(s.world.rows)
    ensures ValidRows(DockerUpload.Handle(s, repoId, u).0.world.rows)
  {
    var bytes := DockerUpload.HandleFinalizes(s, repoId, u);
    if u.Start? || u.Finish? { FinalizeKeepsValidRows(s.world, repoId, u.name, bytes, u.digest, u.env); }
  }

  lemma FinalizeKeepsValidRows(w: World, repoId: string, name: string, bytes: Bytes, claimed: string,
                               env: DockerUpload.Env)
    requires ValidRows(w.rows)
    ensures ValidRows(DockerUpload.FinalizeReads(w, repoId, name, bytes, bytes, claimed, env).0.rows)
  {
  }

  lemma ManifestKeepsValidRows(w: World, repoId: string, m: M.Request)
    requires ValidRows(w.rows)
    ensures ValidRows(M.Handle(w, repoId, m).0.rows)
  {
    if m.Put? {
      var body := M.Body(m.raw);
      var w1 := PutBlob(w, body, m.env.nonce, m.env.faults).0;
      var tagged := !M.IsDigestRef(m.reference) && m.env.tagOk;
      var path, media := M.ManifestPath(m.name, m.reference), MediaOr(m.mediaType, M.DEFAULT_MEDIA);
      UpsertLooksUp(w1.rows, m.env.tagStamp, repoId, path, DigestOf(body), |body|, media);
      var w2 := PutRow(w1, tagged, m.env.tagStamp, repoId, path, DigestOf(body), |body|, media);
      UpsertLooksUp(w2.rows, m.env.digestStamp, repoId, M.ManifestPath(m.name, DigestOf(body)), DigestOf(body), |body|,
                    media);
    }
  }

  lemma PutRowKeepsValidRows(w: World, ok: bool, stamp: Stamp, repoId: string, path: string, digest: string, size: nat,
                             media: string)
    requires ValidRows(w.rows)
    ensures ValidRows(PutRow(w, ok, stamp, repoId, path, digest, size, media).rows)
  {
    UpsertLooksUp(w.rows, stamp, repoId, path, digest, size, media);
  }

  lemma FetchedBlobKeepsValidRows(w: World, repoId: string, name: string, digest: string,
                                  upstream: Option<DockerProxy.Response>, env: DockerProxy.Env)
    requires ValidRows(w.rows)
    ensures ValidRows(DockerProxy.FetchBlob(w, repoId, name, digest, upstream, env).0.rows)
  {
    if upstream.Some? {
      var r := upstream.value;
      PutRowKeepsValidRows(PutBlob(w, r.body, env.nonce, env.faults).0, env.rowOk, env.stamp, repoId,
                           DockerUpload.RefPath(name, digest), digest, |r.body|, MediaOr(r.mediaType, OCTETS));
    }
  }

  lemma FetchedManifestKeepsValidRows(w: World, repoId: string, name: string, reference: string,
                                      upstream: Option<DockerProxy.Response>, env: DockerProxy.Env)
    requires ValidRows(w.rows)
    ensures ValidRows(DockerProxy.FetchManifest(w, repoId, name, reference, upstream, env).0.rows)
  {
    if upstream.Some? {
      var r := upstream.value;
      var w1, d := PutBlob(w, r.body, env.nonce, env.faults).0, DockerProxy.ManifestDigest(r);
      var tagged, media := !M.IsDigestRef(reference) && env.tagOk, MediaOr(r.mediaType, M.DEFAULT_MEDIA);
      var path := M.ManifestPath(name, reference);
      PutRowKeepsValidRows(w1, tagged, env.tagStamp, repoId, path, d, |r.body|, media);
      PutRowKeepsValidRows(PutRow(w1, tagged, env.tagStamp, repoId, path, d, |r.body|, media), env.rowOk, env.stamp,
                           repoId, M.ManifestPath(name, d), d, |r.body|, media);
    }
  }

  lemma FetchKeepsValidRows(s: State, repoId: string, r: Request)
    requires ValidRows(s.world.rows) && (r.FetchBlob? || r.FetchManifest?)
    ensures ValidRows(Handle(s, repoId, r).world.rows)
  {
    match r
    case FetchBlob(name, digest, upstream, env) =>
      FetchedBlobKeepsValidRows(s.world, repoId, name, digest, upstream, env);
    case FetchManifest(name, reference, upstream, env) =>
      FetchedManifestKeepsValidRows(s.world, repoId, name, reference, upstream, env);
  }

  lemma {:induction false} RunKeepsValidRows(s: State, repoId: string, rs: seq<Request>)
    requires ValidRows(s.world.rows)
    ensures ValidRows(After(s, repoId, rs).world.rows)
  {
    if rs != [] {
      RunKeepsValidRows(s, repoId, rs[..|rs| - 1]);
      StepKeepsValidRows(After(s, repoId, rs[..|rs| - 1]), repoId, rs[|rs| - 1]);
    }
  }

  lemma BlobPathsHaveNoUpper(name: string, digest: string)
    requires DockerUpload.ValidName(name) && NoUpper(digest)
    ensures NoUpper(DockerUpload.BlobPath(digest)) && NoUpper(DockerUpload.RefPath(name, digest))
  {
    forall i | 0 <= i < |name| ensures !IsUpper(name[i]) { assert DockerUpload.NameChar(name[i]); }
    JoinsNoUpper("blobs/", digest);
    JoinsNoUpper("refs/", name);
    JoinsNoUpper("refs/" + name, "/blobs/");
    JoinsNoUpper("refs/" + name + "/blobs/", digest);
  }

  lemma JoinsNoUpper(a: string, b: string)
    requires NoUpper(a) && NoUpper(b)
    ensures NoUpper(a + b)
  {
  }

  lemma DigestsHaveNoUpper(body: Bytes)
    ensures NoUpper(DigestOf(body))
  {
    forall i | 0 <= i < |Sha256Hex(body)| ensures !IsUpper(Sha256Hex(body)[i]) {
      assert IsLowerHex(Sha256Hex(body)[i]);
    }
    JoinsNoUpper(ALGORITHM, Sha256Hex(body));
  }

  lemma UploadKeepsDockerRows(s: State, repoId: string, u: DockerUpload.Request)
    requires DockerRows(s.world.rows, repoId) && (u.Finish? ==> DockerUpload.ValidName(u.name))
    ensures DockerRows(Handle(s, repoId, Upload(u)).world.rows, repoId)
  {
    var rows := Handle(s, repoId, Upload(u)).world.rows;
    forall path | (repoId, path) in rows
      ensures NoUpper(path) || exists n, r :: DockerUpload.ValidName(n) && path == M.ManifestPath(n, r)
    {
      if (repoId, path) !in s.world.rows && (u.Start? || u.Finish?) && DockerUpload.ValidName(u.name) {
        if body: Bytes :|
          path == DockerUpload.BlobPath(DigestOf(body)) || path == DockerUpload.RefPath(u.name, DigestOf(body))
        {
          DigestsHaveNoUpper(body);
          BlobPathsHaveNoUpper(u.name, DigestOf(body));
        } else {
          DockerUpload.HandleTouches(s, repoId, u, path);
        }
      }
    }
  }

  lemma FetchKeepsDockerRows(s: State, repoId: string, r: Request)
    requires DockerRows(s.world.rows, repoId) && (r.FetchBlob? || r.FetchManifest?)
    ensures DockerRows(Handle(s, repoId, r).world.rows, repoId)
  {
    if r.FetchBlob? && r.upstream.Some? && DockerUpload.ValidName(r.name) {
      DigestsHaveNoUpper(r.upstream.value.body);
      BlobPathsHaveNoUpper(r.name, DigestOf(r.upstream.value.body));
    }
  }

  lemma StepKeepsDockerRows(s: State, repoId: string, r: Request)
    requires DockerRows(s.world.rows, repoId)
    requires r.Upload? && r.u.Finish? ==> DockerUpload.ValidName(r.u.name)
    ensures DockerRows(Handle(s, repoId, r).world.rows, repoId)
  {
    match r
    case Upload(u) => UploadKeepsDockerRows(s, repoId, u);
    case Manifest(m) => HandleKeepsDockerRows(s.world, repoId, m);
    case DeleteBlob(_, _, _) =>
    case _ => FetchKeepsDockerRows(s, repoId, r);
  }

  /** With valid upload names, every run leaves only lower-case blob paths and manifest paths of valid names. */
  lemma {:induction false} RunKeepsDockerRows(s: State, repoId: string, rs: seq<Request>)
    requires DockerRows(s.world.rows, repoId) && ValidUploadNames(rs)
    ensures DockerRows(After(s, repoId, rs).world.rows, repoId)
  {
    if rs != [] {
      var front := rs[..|rs| - 1];
      assert forall i :: 0 <= i < |front| ==> front[i] == rs[i];
      RunKeepsDockerRows(s, repoId, front);
      StepKeepsDockerRows(After(s, repoId, front), repoId, rs[|rs| - 1]);
    }
  }

  /** The rows of a docker repository stay of that kind through manifest requests. */
  lemma HandleKeepsDockerRows(w: World, repoId: string, r: M.Request)
    requires DockerRows(w.rows, repoId)
    ensures DockerRows(M.Handle(w, repoId, r).0.rows, repoId)
  {
    var rows := M.Handle(w, repoId, r).0.rows;
    forall path | (repoId, path) in rows
      ensures NoUpper(path) || exists n, x :: DockerUpload.ValidName(n) && path == M.ManifestPath(n, x)
    {
      if (repoId, path) !in w.rows { assert DockerUpload.ValidName(r.name); }
    }
  }

  // ---------------------------------------------------------------- exactness over runs

  /**
   After the run, the answer to a request for the image's tags is exactly what its requests
   have bound, in ascending order and each once.
   */
  ghost predicate ExactAfter(d: Dialect, repos: Repos, repoId: string, name: string, rs: seq<Request>) {
    var answer := M.AnswerTags(d, repos, After(START, repoId, rs).world.rows, repoId, name, NO_OUTAGE);
    && answer.Some? && Increasing(answer.value)
    && forall tag :: tag in answer.value <==>
         !M.IsDigestRef(tag) && BoundDigest(START, repoId, rs, name, tag).Some?
  }

  lemma AllRoutedNamesOk(rs: seq<Request>)
    requires AllRouted(rs)
    ensures AllNamesOk(rs)
  {
    forall i | 0 <= i < |rs| ensures NamesOk(rs[i]) { RoutedNamesOk(rs[i]); }
  }

  /** Where the pattern matches only what begins with the prefix, the list is exact over the run. */
  lemma LiteralListIsExact(d: Dialect, repos: Repos, repoId: string, name: string, rs: seq<Request>)
    requires repoId in repos.byId && !repos.byId[repoId].kind.Group?
    requires DockerUpload.ValidName(name) && M.Routable(name) && AllRouted(rs)
    requires LiteralMatches(d, After(START, repoId, rs).world.rows, repoId, M.ManifestPrefix(name))
    ensures ExactAfter(d, repos, repoId, name, rs)
  {
    var rows := After(START, repoId, rs).world.rows;
    AllRoutedNamesOk(rs);
    RunKeepsValidRows(START, repoId, rs);
    M.AnswerIsTagsList(d, repos, rows, repoId, name, NO_OUTAGE);
    TagsListAscends(d, repos, rows, repoId, name);
    forall tag ensures tag in M.TagsList(d, repos, rows, repoId, name) <==>
                       !M.IsDigestRef(tag) && BoundDigest(START, repoId, rs, name, tag).Some?
    {
      if !M.IsDigestRef(tag) { RowIsBoundDigest(START, repoId, rs, name, tag); }
      if Bound(rows, repoId, name, tag) { BoundIsListed(d, repos, rows, repoId, name, tag); }
      if tag in M.TagsList(d, repos, rows, repoId, name) { ListedIsBound(d, repos, rows, repoId, name, tag); }
    }
  }

  // ---------------------------------------------------------------- runs that make the list wrong

  /** What the code would draw at random. */
  const SESSION: string := "00000000-0000-4000-8000-000000000000"
  const NONCE: string := "00000000000000000000000000000000"

  const ENV: DockerUpload.Env :=
    DockerUpload.Env(false, false, NONCE, NO_FAULTS, true, true, Stamp("", 0), Stamp("", 0))

  const PUT_ENV: M.Env :=
    M.Env(false, NONCE, NO_FAULTS, true, true, Stamp("", 0), Stamp("", 0))

  /** The JSON text `{}`. */
  const DOCUMENT: Bytes := [0x7B, 0x7D]

  const NOTHING: DockerUpload.Chunk := DockerUpload.Chunk([], true)

  const EMPTY_DIGEST: string := DigestOf([])

  /** Put a document. */
  function PutRun(name: string, reference: string): seq<Request> {
    [Manifest(M.Put(name, reference, DOCUMENT, true, "", PUT_ENV))]
  }

  /** A whole blob in one POST, of unknown length. */
  function PostRun(name: string): seq<Request> {
    [Upload(DockerUpload.Start(SESSION, name, EMPTY_DIGEST, -1, NOTHING, ENV))]
  }

  /** Open a session for one image and finish it under another name. */
  function SessionRun(name: string): seq<Request> {
    [Upload(DockerUpload.Start(SESSION, "a", "", 0, NOTHING, ENV)),
     Upload(DockerUpload.Finish(SESSION, name, EMPTY_DIGEST, 0, NOTHING, ENV))]
  }

  lemma AfterOne(s: State, repoId: string, r: Request)
    ensures After(s, repoId, [r]) == Handle(s, repoId, r)
  {
    assert [r][..0] == [];
  }

  lemma AfterTwo(s: State, repoId: string, r: Request, t: Request)
    ensures After(s, repoId, [r, t]) == Handle(Handle(s, repoId, r), repoId, t)
  {
    AfterOne(s, repoId, r);
    assert [r, t][..1] == [r];
  }

  lemma PutRunBinds(repoId: string, name: string, reference: string)
    requires DockerUpload.ValidName(name) && !M.IsDigestRef(reference)
    ensures (repoId, M.ManifestPath(name, reference)) in After(START, repoId, PutRun(name, reference)).world.rows
    ensures forall n, tag | n != name :: BoundDigest(START, repoId, PutRun(name, reference), n, tag) == None
  {
    var r := Manifest(M.Put(name, reference, DOCUMENT, true, "", PUT_ENV));
    AfterOne(START, repoId, r);
    assert [r][..0] == [];
    forall n, tag | n != name ensures BoundDigest(START, repoId, PutRun(name, reference), n, tag) == None {
      assert BoundDigest(START, repoId, [r][..0], n, tag) == None;
    }
  }

  lemma PostRunWrites(repoId: string, name: string)
    requires DockerUpload.ValidName(name)
    ensures (repoId, DockerUpload.RefPath(name, EMPTY_DIGEST)) in After(START, repoId, PostRun(name)).world.rows
  {
    var u := DockerUpload.Start(SESSION, name, EMPTY_DIGEST, -1, NOTHING, ENV);
    AfterOne(START, repoId, Upload(u));
    assert [] + NOTHING.bytes == [];
    DockerUpload.FinalizeSound(START.world, repoId, name, [], EMPTY_DIGEST, ENV);
  }

  lemma SessionRunWrites(repoId: string, name: string)
    ensures (repoId, DockerUpload.RefPath(name, EMPTY_DIGEST)) in After(START, repoId, SessionRun(name)).world.rows
  {
    var u := DockerUpload.Start(SESSION, "a", "", 0, NOTHING, ENV);
    var v := DockerUpload.Finish(SESSION, name, EMPTY_DIGEST, 0, NOTHING, ENV);
    AfterTwo(START, repoId, Upload(u), Upload(v));
    DockerUpload.FinalizeSound(START.world, repoId, name, [], EMPTY_DIGEST, ENV);
  }

  lemma {:induction false} UploadsBindNothing(repoId: string, rs: seq<Request>, name: string, tag: string)
    requires forall i :: 0 <= i < |rs| ==> rs[i].Upload?
    ensures BoundDigest(START, repoId, rs, name, tag) == None
  {
    if rs != [] { UploadsBindNothing(repoId, rs[..|rs| - 1], name, tag); }
  }

  lemma SessionRunBindsNothing(repoId: string, finish: string, name: string, tag: string)
    ensures BoundDigest(START, repoId, SessionRun(finish), name, tag) == None
  {
    UploadsBindNothing(repoId, SessionRun(finish), name, tag);
  }

  /** A row whose path matches and is no digest's shows up in the list. */
  lemma StrayRowListed(d: Dialect, repos: Repos, repoId: string, name: string, rs: seq<Request>, path: string)
    requires repoId in repos.byId && !repos.byId[repoId].kind.Group?
    requires (repoId, path) in After(START, repoId, rs).world.rows && MatchesPrefix(d, M.ManifestPrefix(name), path)
    requires var tag := TrimPrefix(path, M.ManifestPrefix(name));
             !M.IsDigestRef(tag) && BoundDigest(START, repoId, rs, name, tag) == None
    ensures !ExactAfter(d, repos, repoId, name, rs)
  {
    RunKeepsValidRows(START, repoId, rs);
    MatchingRowIsListed(d, repos, After(START, repoId, rs).world.rows, repoId, name, path);
    M.AnswerIsTagsList(d, repos, After(START, repoId, rs).world.rows, repoId, name, NO_OUTAGE);
  }

  lemma NotADigest(path: string)
    requires HasPrefix(path, "refs/")
    ensures !M.IsDigestRef(path)
  {
    PrefixChar(path, "refs/", 0);
    PrefixChar(path, ALGORITHM, 0);
  }

  // -------- an underscore in the name

  function Replaced(name: string): string {
    seq(|name|, i requires 0 <= i < |name| => if name[i] == '_' then 'x' else name[i])
  }

  lemma OtherIsValid(name: string)
    requires DockerUpload.ValidName(name)
    ensures DockerUpload.ValidName(Replaced(name))
  {
    forall i | 0 <= i < |name| ensures DockerUpload.NameChar(Replaced(name)[i]) {
      assert DockerUpload.NameChar(name[i]);
    }
  }

  /** Where the other name has a separator, this one has it too. */
  lemma OtherIsRoutable(name: string)
    requires M.Routable(name)
    ensures M.Routable(Replaced(name))
  {
    var other := Replaced(name);
    assert OccursAt(other + M.SEPARATOR, M.SEPARATOR, |name|);
    forall j | 0 <= j < |name| ensures !OccursAt(other + M.SEPARATOR, M.SEPARATOR, j) {
      if OccursAt(other + M.SEPARATOR, M.SEPARATOR, j) { SeparatorWasThere(name, j); }
    }
  }

  lemma SeparatorWasThere(name: string, j: nat)
    requires OccursAt(Replaced(name) + M.SEPARATOR, M.SEPARATOR, j)
    ensures OccursAt(name + M.SEPARATOR, M.SEPARATOR, j)
  {
    var p, q := Replaced(name) + M.SEPARATOR, name + M.SEPARATOR;
    forall k | 0 <= k < |M.SEPARATOR| ensures q[j..j + |M.SEPARATOR|][k] == M.SEPARATOR[k] {
      assert p[j..j + |M.SEPARATOR|][k] == p[j + k] == M.SEPARATOR[k] != 'x';
    }
  }

  lemma OtherHasAnotherPrefix(name: string)
    requires '_' in name
    ensures !HasPrefix(M.ManifestPath(Replaced(name), "v"), M.ManifestPrefix(name)) && Replaced(name) != name
  {
    var p, path := M.ManifestPrefix(name), M.ManifestPath(Replaced(name), "v");
    var i :| 0 <= i < |name| && name[i] == '_';
    assert p[5 + i] == '_' && path[5 + i] == 'x';
    PrefixChar(path, p, 5 + i);
  }

  lemma FitsOther(d: Dialect, name: string)
    ensures Fits(d, M.ManifestPrefix(name), M.ManifestPath(Replaced(name), "v"))
  {
    var p, path := M.ManifestPrefix(name), M.ManifestPath(Replaced(name), "v");
    assert path == "refs/" + Replaced(name) + M.SEPARATOR + "v";
    forall i | 0 <= i < |p| ensures p[i] == '_' || p[i] == path[i] {
      if 5 <= i < 5 + |name| {
        assert p[i] == name[i - 5] && path[i] == Replaced(name)[i - 5];
      }
    }
  }

  lemma OtherMatches(d: Dialect, name: string)
    requires DockerUpload.ValidName(name)
    ensures var path := M.ManifestPath(Replaced(name), "v");
            MatchesPrefix(d, M.ManifestPrefix(name), path) && !M.IsDigestRef(path)
  {
    var path := M.ManifestPath(Replaced(name), "v");
    NamePrefixShape(d, name);
    FitsOther(d, name);
    WithoutPercent(d, M.ManifestPrefix(name), path);
    assert path[..5] == "refs/";
    NotADigest(path);
  }

  /** An image with an underscore in its name lists the manifest of another image, on either database. */
  lemma UnderscoreListsAnother(d: Dialect, repos: Repos, repoId: string, name: string)
    requires repoId in repos.byId && !repos.byId[repoId].kind.Group?
    requires DockerUpload.ValidName(name) && M.Routable(name) && '_' in name
    ensures AllRouted(PutRun(Replaced(name), "v")) && !ExactAfter(d, repos, repoId, name, PutRun(Replaced(name), "v"))
  {
    var other, path := Replaced(name), M.ManifestPath(Replaced(name), "v");
    OtherIsValid(name);
    OtherIsRoutable(name);
    ManifestRoutes(other, "v");
    OtherMatches(d, name);
    OtherHasAnotherPrefix(name);
    PutRunBinds(repoId, other, "v");
    StrayRowListed(d, repos, repoId, name, PutRun(other, "v"), path);
  }

  lemma ManifestRoutes(name: string, reference: string)
    requires name != "" && M.Routable(name) && reference != "" && reference[|reference| - 1] != 't'
    ensures Routes(DockerRoute.Manifest(name, reference))
  {
    LastOfSuffix(M.SEPARATOR + reference, DockerRoute.TAGS);
    DockerRoute.ManifestRoundTripsIff(name, reference);
  }

  // -------- a separator in the name

  lemma NameCharsInPath(name: string, i: nat)
    requires DockerUpload.ValidName(name) && i <= |name|
    ensures var p := name + M.SEPARATOR + "x"; forall k :: i <= k < |p| ==> p[k] != ':'
  {
    var p := name + M.SEPARATOR + "x";
    forall k | i <= k < |p| ensures p[k] != ':' {
      if k < |name| { assert DockerUpload.NameChar(name[k]); }
    }
  }

  lemma NoColonNoDigest(s: string)
    requires forall k :: 0 <= k < |s| ==> s[k] != ':'
    ensures !M.IsDigestRef(s)
  {
    PrefixChar(s, ALGORITHM, 6);
  }

  lemma ValidStart(name: string, i: nat)
    requires DockerUpload.ValidName(name) && 0 < i <= |name|
    ensures DockerUpload.ValidName(name[..i])
  {
  }

  /** The image named by the text before the separator has a manifest in this image's directory. */
  lemma SeparatorListsAnother(d: Dialect, repos: Repos, repoId: string, name: string, i: int)
    requires repoId in repos.byId && !repos.byId[repoId].kind.Group?
    requires DockerUpload.ValidName(name) && i == Index(name + M.SEPARATOR, M.SEPARATOR) && 0 < i < |name|
    ensures var rs := PutRun(name[..i], (name + M.SEPARATOR + "x")[i + |M.SEPARATOR|..]);
            AllRouted(rs) && !ExactAfter(d, repos, repoId, name, rs)
  {
    var p := name + M.SEPARATOR + "x";
    var owner, reference := name[..i], p[i + |M.SEPARATOR|..];
    OccursInPrefix(name + M.SEPARATOR, "x", M.SEPARATOR, i);
    FirstIn(name + M.SEPARATOR, "x", i);
    DockerRoute.SplitAtIndex(p, M.SEPARATOR, i);
    DockerRoute.FirstIsFirstAfter(p, M.SEPARATOR, i);
    assert p[..i] == owner;
    ValidStart(name, i);
    assert reference[|reference| - 1] == p[|p| - 1] == 'x';
    ManifestRoutes(owner, reference);
    NameCharsInPath(name, 0);
    NoColonNoDigest(reference);
    NoColonNoDigest("x");
    PutRunBinds(repoId, owner, reference);
    SamePath(name, "x", owner, reference);
    ListedUnderName(d, repos, repoId, name, PutRun(owner, reference), "x");
  }

  /** The first separator stays the first when text is added behind. */
  lemma FirstIn(head: string, tail: string, i: int)
    requires i == Index(head, M.SEPARATOR) && i >= 0
    ensures Index(head + tail, M.SEPARATOR) == i
  {
    OccursInPrefix(head, tail, M.SEPARATOR, i);
    OccursInPrefix(head, tail, M.SEPARATOR, Index(head + tail, M.SEPARATOR));
  }

  lemma SamePath(name: string, tag: string, owner: string, reference: string)
    requires name + M.SEPARATOR + tag == owner + (M.SEPARATOR + reference)
    ensures M.ManifestPath(name, tag) == M.ManifestPath(owner, reference)
  {
    assert M.ManifestPath(name, tag) == "refs/" + (name + M.SEPARATOR + tag);
    assert M.ManifestPath(owner, reference) == "refs/" + (owner + (M.SEPARATOR + reference));
  }

  /** A row in the image's directory that no request of the run bound makes the list wrong. */
  lemma ListedUnderName(d: Dialect, repos: Repos, repoId: string, name: string, rs: seq<Request>, tag: string)
    requires repoId in repos.byId && !repos.byId[repoId].kind.Group?
    requires DockerUpload.ValidName(name) && !M.IsDigestRef(tag) && BoundDigest(START, repoId, rs, name, tag) == None
    requires (repoId, M.ManifestPath(name, tag)) in After(START, repoId, rs).world.rows
    ensures !ExactAfter(d, repos, repoId, name, rs)
  {
    RunKeepsValidRows(START, repoId, rs);
    BoundIsListed(d, repos, After(START, repoId, rs).world.rows, repoId, name, tag);
    M.AnswerIsTagsList(d, repos, After(START, repoId, rs).world.rows, repoId, name, NO_OUTAGE);
  }

  lemma BlobTag(name: string, rest: string, digest: string)
    ensures DockerUpload.RefPath(name + M.SEPARATOR + rest, digest) == M.ManifestPath(name, rest + "/blobs/" + digest)
  {
  }

  lemma BlobTagIsNoDigest(digest: string)
    ensures !M.IsDigestRef("x" + "/blobs/" + digest)
  {
    PrefixChar("x" + "/blobs/" + digest, ALGORITHM, 0);
  }

  lemma LongerNameIsValid(name: string)
    requires DockerUpload.ValidName(name)
    ensures DockerUpload.ValidName(name + M.SEPARATOR + "x")
  {
    var p := name + M.SEPARATOR + "x";
    forall k | 0 <= k < |p| ensures DockerUpload.NameChar(p[k]) {
      if k < |name| { assert DockerUpload.NameChar(name[k]); }
    }
  }

  /** If the name starts with the separator, a blob uploaded for a longer name lands in its directory. */
  lemma LeadingSeparatorListsBlob(d: Dialect, repos: Repos, repoId: string, name: string)
    requires repoId in repos.byId && !repos.byId[repoId].kind.Group?
    requires DockerUpload.ValidName(name) && Index(name + M.SEPARATOR, M.SEPARATOR) == 0
    ensures var rs := PostRun(name + M.SEPARATOR + "x");
            AllRouted(rs) && ValidUploadNames(rs) && !ExactAfter(d, repos, repoId, name, rs)
  {
    var longer := name + M.SEPARATOR + "x";
    LongerNameIsValid(name);
    LongerNameRoutes(name);
    PostRunWrites(repoId, longer);
    BlobTag(name, "x", EMPTY_DIGEST);
    BlobTagIsNoDigest(EMPTY_DIGEST);
    var tag := "x" + "/blobs/" + EMPTY_DIGEST;
    UploadsBindNothing(repoId, PostRun(longer), name, tag);
    ListedUnderName(d, repos, repoId, name, PostRun(longer), tag);
  }

  lemma LongerNameRoutes(name: string)
    requires Index(name + M.SEPARATOR, M.SEPARATOR) == 0
    ensures Routes(DockerRoute.UploadStart(name + M.SEPARATOR + "x"))
  {
    var longer := name + M.SEPARATOR + "x";
    FirstIn(name + M.SEPARATOR, "x", 0);
    FirstIn(longer, DockerRoute.UPLOADS_SLASH, 0);
    DockerRoute.UploadStartRoundTripsIff(longer);
  }

  // -------- letters on SQLite

  /** The name in capitals. */
  function Shouted(name: string): string {
    seq(|name|, i requires 0 <= i < |name| => SwapCase(name[i]))
  }

  const SHOUTED_SEPARATOR: string := "/MANIFESTS/X"

  predicate NoLower(s: string) {
    forall i :: 0 <= i < |s| ==> !IsLower(s[i])
  }

  lemma ShoutedHasNoLower(name: string)
    requires DockerUpload.ValidName(name)
    ensures NoLower(Shouted(name) + SHOUTED_SEPARATOR)
  {
    forall i | 0 <= i < |name| ensures !IsLower(Shouted(name)[i]) { assert DockerUpload.NameChar(name[i]); }
  }

  /** A capital name is cut off at the first upload separator, and no manifest separator comes before or after. */
  lemma CapitalSessionRoutes(name: string, id: string)
    requires name != "" && NoLower(name) && id != "" && 'm' !in id && id[|id| - 1] == '0'
    ensures Routes(DockerRoute.UploadSession(name, id))
  {
    FirstUploadSeparator(name);
    NoManifestSeparator(name, id);
    SessionTailIsPlain(id);
    DockerRoute.UploadSessionRoundTripsIff(name, id);
  }

  lemma FirstUploadSeparator(name: string)
    requires NoLower(name)
    ensures FirstAfter(name, DockerRoute.UPLOADS_SLASH)
  {
    var sep := DockerRoute.UPLOADS_SLASH;
    assert OccursAt(name + sep, sep, |name|);
    forall j | 0 <= j < |name| ensures !OccursAt(name + sep, sep, j) { OccurrenceChar(name + sep, sep, j, 1); }
  }

  lemma SessionTailIsPlain(id: string)
    requires id != "" && id[|id| - 1] == '0'
    ensures var tail := DockerRoute.UPLOADS_SLASH + id;
            && !HasSuffix(tail, DockerRoute.TAGS) && !HasSuffix(tail, DockerRoute.UPLOADS)
            && !HasSuffix(tail, DockerRoute.UPLOADS_SLASH)
  {
    var tail := DockerRoute.UPLOADS_SLASH + id;
    LastOfSuffix(tail, DockerRoute.TAGS);
    LastOfSuffix(tail, DockerRoute.UPLOADS);
    LastOfSuffix(tail, DockerRoute.UPLOADS_SLASH);
  }

  lemma NoManifestSeparator(name: string, id: string)
    requires NoLower(name) && 'm' !in id
    ensures Index(name + (DockerRoute.UPLOADS_SLASH + id), M.SEPARATOR) == -1
  {
    var p := name + (DockerRoute.UPLOADS_SLASH + id);
    forall k | 0 <= k < |p| ensures p[k] != 'm' {
      if k < |name| {
        assert !IsLower(name[k]);
      } else if k < |name| + |DockerRoute.UPLOADS_SLASH| {
        assert p[k] == DockerRoute.UPLOADS_SLASH[k - |name|];
      } else {
        assert p[k] == id[k - |name| - |DockerRoute.UPLOADS_SLASH|];
      }
    }
    WithoutM(p);
  }

  lemma SessionIsPlain()
    ensures SESSION != "" && 'm' !in SESSION && SESSION[|SESSION| - 1] == '0'
  {
  }

  lemma SessionRunRouted(name: string)
    requires name != "" && NoLower(name)
    ensures AllRouted(SessionRun(name))
  {
    SessionIsPlain();
    CapitalSessionRoutes(name, SESSION);
    PlainStartRoutes();
  }

  lemma WithoutM(p: string)
    requires 'm' !in p
    ensures Index(p, M.SEPARATOR) == -1
  {
    OccurrenceChar(p, M.SEPARATOR, Index(p, M.SEPARATOR), 1);
  }

  lemma FitsShouted(name: string, rest: string)
    requires DockerUpload.ValidName(name)
    ensures Fits(Sqlite, M.ManifestPrefix(name), "refs/" + Shouted(name) + "/MANIFESTS/" + rest)
    ensures !HasPrefix("refs/" + Shouted(name) + "/MANIFESTS/" + rest, M.ManifestPrefix(name))
  {
    var p, path := M.ManifestPrefix(name), "refs/" + Shouted(name) + "/MANIFESTS/" + rest;
    assert p == "refs/" + name + M.SEPARATOR;
    forall i | 0 <= i < |p| ensures p[i] == '_' || SameChar(Sqlite, p[i], path[i]) {
      if 5 <= i < 5 + |name| {
        assert p[i] == name[i - 5] && path[i] == SwapCase(name[i - 5]) && DockerUpload.NameChar(name[i - 5]);
      } else if i < 5 {
        assert p[i] == path[i];
      } else {
        assert p[i] == M.SEPARATOR[i - 5 - |name|] && path[i] == "/MANIFESTS/"[i - 5 - |name|];
        FoldedSeparator(i - 5 - |name|);
      }
    }
    assert p[6 + |name|] == 'm' && path[6 + |name|] == 'M';
    PrefixChar(path, p, 6 + |name|);
  }

  lemma FoldedSeparator(k: nat)
    requires k < |M.SEPARATOR|
    ensures Fold(M.SEPARATOR[k]) == Fold("/MANIFESTS/"[k])
  {
  }

  lemma ShoutedPath(name: string, digest: string)
    ensures DockerUpload.RefPath(Shouted(name) + SHOUTED_SEPARATOR, digest) ==
            "refs/" + Shouted(name) + "/MANIFESTS/" + ("X/blobs/" + digest)
  {
  }

  lemma ShoutedMatches(name: string)
    requires DockerUpload.ValidName(name)
    ensures var path := DockerUpload.RefPath(Shouted(name) + SHOUTED_SEPARATOR, EMPTY_DIGEST);
            && MatchesPrefix(Sqlite, M.ManifestPrefix(name), path) && !HasPrefix(path, M.ManifestPrefix(name))
            && !M.IsDigestRef(path)
  {
    var path := DockerUpload.RefPath(Shouted(name) + SHOUTED_SEPARATOR, EMPTY_DIGEST);
    ShoutedPath(name, EMPTY_DIGEST);
    FitsShouted(name, "X/blobs/" + EMPTY_DIGEST);
    NamePrefixShape(Sqlite, name);
    WithoutPercent(Sqlite, M.ManifestPrefix(name), path);
    assert path[..5] == "refs/";
    NotADigest(path);
  }

  /**
   On SQLite every image lists blobs of a session finished under its name in capitals:
   the session's name is not checked, routing takes the capital separator for part of it,
   and `LIKE` folds the case.
   */
  lemma CapitalsAreListed(repos: Repos, repoId: string, name: string)
    requires repoId in repos.byId && !repos.byId[repoId].kind.Group?
    requires DockerUpload.ValidName(name)
    ensures var rs := SessionRun(Shouted(name) + SHOUTED_SEPARATOR);
            AllRouted(rs) && !ExactAfter(Sqlite, repos, repoId, name, rs)
  {
    var capital := Shouted(name) + SHOUTED_SEPARATOR;
    var rs := SessionRun(capital);
    var path := DockerUpload.RefPath(capital, EMPTY_DIGEST);
    ShoutedHasNoLower(name);
    SessionRunRouted(capital);
    SessionRunWrites(repoId, capital);
    ShoutedMatches(name);
    SessionRunBindsNothing(repoId, capital, name, path);
    StrayRowListed(Sqlite, repos, repoId, name, rs, path);
  }

  lemma PlainStartRoutes()
    ensures Routes(DockerRoute.UploadStart("a"))
  {
    WithoutM("a" + DockerRoute.UPLOADS_SLASH);
    DockerRoute.UploadStartRoundTripsIff("a");
  }

  // ---------------------------------------------------------------- when the tag list is right

  /**
   For a valid image name, the tag list is what the requests bound, after every run of
   requests that URLs can carry, if and only if the database is PostgreSQL and the name
   has no underscore and is one that manifest routing can produce.
   */
  lemma TagListExactIff(d: Dialect, repos: Repos, repoId: string, name: string)
    requires repoId in repos.byId && !repos.byId[repoId].kind.Group?
    requires DockerUpload.ValidName(name)
    ensures d.Postgres? && '_' !in name && M.Routable(name) <==>
            forall rs: seq<Request> | AllRouted(rs) :: ExactAfter(d, repos, repoId, name, rs)
  {
    if !M.Routable(name) {
      var rs := WrongUnlessRoutable(d, repos, repoId, name);
    } else if '_' in name {
      UnderscoreListsAnother(d, repos, repoId, name);
    } else if d.Sqlite? {
      CapitalsAreListed(repos, repoId, name);
    } else {
      forall rs: seq<Request> | AllRouted(rs) ensures ExactAfter(d, repos, repoId, name, rs) {
        PostgresMatchesLiterally(After(START, repoId, rs).world.rows, repoId, name);
        LiteralListIsExact(d, repos, repoId, name, rs);
      }
    }
  }

  lemma WrongUnlessRoutable(d: Dialect, repos: Repos, repoId: string, name: string) returns (rs: seq<Request>)
    requires repoId in repos.byId && !repos.byId[repoId].kind.Group?
    requires DockerUpload.ValidName(name) && !M.Routable(name)
    ensures AllRouted(rs) && ValidUploadNames(rs) && !ExactAfter(d, repos, repoId, name, rs)
  {
    var i := Index(name + M.SEPARATOR, M.SEPARATOR);
    assert OccursAt(name + M.SEPARATOR, M.SEPARATOR, |name|);
    if i == 0 {
      rs := PostRun(name + M.SEPARATOR + "x");
      LeadingSeparatorListsBlob(d, repos, repoId, name);
    } else {
      rs := PutRun(name[..i], (name + M.SEPARATOR + "x")[i + |M.SEPARATOR|..]);
      SeparatorListsAnother(d, repos, repoId, name, i);
    }
  }

  /**
   The missing check of the session's name is all that sets SQLite apart: over runs in
   which those names are valid the list is exact, on either database, if and only if the
   name has no underscore and is one that manifest routing can produce.
   */
  lemma TagListExactIffValidated(d: Dialect, repos: Repos, repoId: string, name: string)
    requires repoId in repos.byId && !repos.byId[repoId].kind.Group?
    requires DockerUpload.ValidName(name)
    ensures '_' !in name && M.Routable(name) <==>
            forall rs: seq<Request> | AllRouted(rs) && ValidUploadNames(rs) :: ExactAfter(d, repos, repoId, name, rs)
  {
    if !M.Routable(name) {
      var rs := WrongUnlessRoutable(d, repos, repoId, name);
    } else if '_' in name {
      UnderscoreListsAnother(d, repos, repoId, name);
      assert ValidUploadNames(PutRun(Replaced(name), "v"));
    } else {
      forall rs: seq<Request> | AllRouted(rs) && ValidUploadNames(rs) ensures ExactAfter(d, repos, repoId, name, rs) {
        RunKeepsDockerRows(START, repoId, rs);
        DockerRowsMatchLiterally(d, After(START, repoId, rs).world.rows, repoId, name);
        LiteralListIsExact(d, repos, repoId, name, rs);
      }
    }
  }
}
