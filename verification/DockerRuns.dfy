/**
 One docker repository under all the requests that write to it: uploads, manifests,
 blob deletes and, for a proxy, the fetches on a miss. Requests arrive as URLs, so the
 names and references they carry are those that routing can produce.
 */
module DockerRuns {
  import opened Text
  import opened Sequences
  import opened Storage
  import opened Cas
  import opened Artifacts
  import opened Wrappers
  import opened Registry
  import Groups
  import DockerUpload
  import DockerManifest
  import DockerProxy
  import DockerRoute

  type State = DockerUpload.State

  datatype Request =
    | Upload(u: DockerUpload.Request)
    | Manifest(m: DockerManifest.Request)
    | DeleteBlob(name: string, digest: string, ok: bool)
    | FetchBlob(name: string, digest: string, upstream: Option<DockerProxy.Response>, env: DockerProxy.Env)
    | FetchManifest(name: string, reference: string, upstream: Option<DockerProxy.Response>, env: DockerProxy.Env)

  /** The shape of digest that blob requests are checked for. */
  predicate LooksLikeDigest(d: string) {
    HasPrefix(d, ALGORITHM) && LowerHex(d[7..], 64)
  }

  function Handle(s: State, repoId: string, r: Request): State {
    match r
    case Upload(u) => DockerUpload.Handle(s, repoId, u).0
    case Manifest(m) => s.(world := DockerManifest.Handle(s.world, repoId, m).0)
    case DeleteBlob(name, digest, ok) =>
      if !DockerUpload.ValidName(name) || !LooksLikeDigest(digest) then s
      else s.(world := DropRow(s.world, ok, repoId, DockerUpload.RefPath(name, digest)))
    case FetchBlob(name, digest, upstream, env) =>
      if !DockerUpload.ValidName(name) || !LooksLikeDigest(digest) then s
      else s.(world := DockerProxy.FetchBlob(s.world, repoId, name, digest, upstream, env).0)
    case FetchManifest(name, reference, upstream, env) =>
      if !DockerUpload.ValidName(name) then s
      else s.(world := DockerProxy.FetchManifest(s.world, repoId, name, reference, upstream, env).0)
  }

  function After(s: State, repoId: string, rs: seq<Request>): State {
    if rs == [] then s else Handle(After(s, repoId, rs[..|rs| - 1]), repoId, rs[|rs| - 1])
  }

  const START: State := DockerUpload.State(DockerUpload.Staging(map[], map[]), World(map[], map[]))

  // ---------------------------------------------------------------- names

  /** Some URL is routed here. */
  ghost predicate Routes(route: DockerRoute.Route) {
    exists path :: DockerRoute.ParsePath(path) == route
  }

  /** The request came in as a URL. Handlers that do not look at the name in it are not asked for one. */
  ghost predicate Routed(r: Request) {
    match r
    case Upload(u) =>
      && (u.Start? ==> Routes(DockerRoute.UploadStart(u.name)))
      && (u.Finish? ==> Routes(DockerRoute.UploadSession(u.name, u.id)))
    case Manifest(m) => Routes(DockerRoute.Manifest(m.name, m.reference))
    case DeleteBlob(name, digest, _) => Routes(DockerRoute.Blob(name, digest))
    case FetchBlob(name, digest, _, _) => Routes(DockerRoute.Blob(name, digest))
    case FetchManifest(name, reference, _, _) => Routes(DockerRoute.Manifest(name, reference))
  }

  ghost predicate AllRouted(rs: seq<Request>) {
    forall i :: 0 <= i < |rs| ==> Routed(rs[i])
  }

  /** Up to its blob separator the path has no manifest separator, but perhaps at its very start. */
  predicate BlobName(name: string) {
    Index(name + DockerRoute.BLOBS, DockerManifest.SEPARATOR) <= 0
  }

  /** What routing says of the names in requests that write rows, and all that the theorems need of it. */
  predicate NamesOk(r: Request) {
    match r
    case Upload(u) => u.Start? || u.Finish? ==> BlobName(u.name)
    case Manifest(m) => m.name != "" && DockerManifest.Routable(m.name)
    case DeleteBlob(name, _, _) => BlobName(name)
    case FetchBlob(name, _, _, _) => BlobName(name)
    case FetchManifest(name, _, _, _) => name != "" && DockerManifest.Routable(name)
  }

  predicate AllNamesOk(rs: seq<Request>) {
    forall i :: 0 <= i < |rs| ==> NamesOk(rs[i])
  }

  /** A separator found late in the shared beginning of two paths is found in both. */
  lemma SharedSeparator(p: string, shared: string, rest: string)
    requires p == shared + rest && Index(p, DockerManifest.SEPARATOR) <= 0
    ensures Index(shared, DockerManifest.SEPARATOR) <= 0
  {
    var sep := DockerManifest.SEPARATOR;
    var i, j := Index(p, sep), Index(shared, sep);
    if j > 0 {
      OccursInPrefix(shared, rest, sep, j);
      assert OccursAt(p, sep, j);
      OccursInPrefix(shared, rest, sep, 0);
    }
  }

  lemma RoutedBlobName(name: string, tail: string, p: string)
    requires p == name + (DockerRoute.BLOBS + tail) && Index(p, DockerManifest.SEPARATOR) <= 0
    ensures BlobName(name)
  {
    assert p == (name + DockerRoute.BLOBS) + tail;
    SharedSeparator(p, name + DockerRoute.BLOBS, tail);
  }

  /** Names come out of URLs as the theorems need them. */
  lemma RoutedNamesOk(r: Request)
    requires Routed(r)
    ensures NamesOk(r)
  {
    match r
    case Upload(u) =>
      if u.Start? {
        var path :| DockerRoute.ParsePath(path) == DockerRoute.UploadStart(u.name);
        UploadStartName(path);
      }
      if u.Finish? {
        var path :| DockerRoute.ParsePath(path) == DockerRoute.UploadSession(u.name, u.id);
        UploadSessionName(path);
      }
    case Manifest(m) =>
      var path :| DockerRoute.ParsePath(path) == DockerRoute.Manifest(m.name, m.reference);
      DockerRoute.ParsedNamesAreRoutable(path);
    case DeleteBlob(name, digest, _) =>
      var path :| DockerRoute.ParsePath(path) == DockerRoute.Blob(name, digest);
      BlobRouteName(path);
    case FetchBlob(name, digest, _, _) =>
      var path :| DockerRoute.ParsePath(path) == DockerRoute.Blob(name, digest);
      BlobRouteName(path);
    case FetchManifest(name, reference, _, _) =>
      var path :| DockerRoute.ParsePath(path) == DockerRoute.Manifest(name, reference);
      DockerRoute.ParsedNamesAreRoutable(path);
  }

  lemma BlobNameBefore(p: string, suffix: string, tail: string)
    requires HasSuffix(p, suffix) && suffix == DockerRoute.BLOBS + tail && Index(p, DockerManifest.SEPARATOR) <= 0
    ensures BlobName(TrimSuffix(p, suffix))
  {
    SuffixSplits(p, suffix);
    RoutedBlobName(TrimSuffix(p, suffix), tail, p);
  }

  lemma UploadStartName(path: string)
    requires DockerRoute.ParsePath(path).UploadStart?
    ensures BlobName(DockerRoute.ParsePath(path).name)
  {
    var p := TrimPrefix(TrimPrefix(path, DockerRoute.MOUNT), "/");
    UploadsJoin();
    if HasSuffix(p, DockerRoute.UPLOADS_SLASH) {
      BlobNameBefore(p, DockerRoute.UPLOADS_SLASH, "uploads/");
    } else {
      BlobNameBefore(p, DockerRoute.UPLOADS, "uploads");
    }
  }

  lemma UploadsJoin()
    ensures DockerRoute.UPLOADS_SLASH == DockerRoute.BLOBS + "uploads/"
    ensures DockerRoute.UPLOADS == DockerRoute.BLOBS + "uploads"
  {
  }

  lemma UploadSessionName(path: string)
    requires DockerRoute.ParsePath(path).UploadSession?
    ensures BlobName(DockerRoute.ParsePath(path).name)
  {
    var p := TrimPrefix(TrimPrefix(path, DockerRoute.MOUNT), "/");
    var r := DockerRoute.ParsePath(path);
    DockerRoute.SplitAtIndex(p, DockerRoute.UPLOADS_SLASH, Index(p, DockerRoute.UPLOADS_SLASH));
    SessionTail(r.reference);
    RoutedBlobName(r.name, "uploads/" + r.reference, p);
  }

  lemma SessionTail(tail: string)
    ensures DockerRoute.UPLOADS_SLASH + tail == DockerRoute.BLOBS + ("uploads/" + tail)
  {
  }

  lemma BlobRouteName(path: string)
    requires DockerRoute.ParsePath(path).Blob?
    ensures BlobName(DockerRoute.ParsePath(path).name)
  {
    var p := TrimPrefix(TrimPrefix(path, DockerRoute.MOUNT), "/");
    var r := DockerRoute.ParsePath(path);
    DockerRoute.SplitAtIndex(p, DockerRoute.BLOBS, Index(p, DockerRoute.BLOBS));
    RoutedBlobName(r.name, r.reference, p);
  }

  // ---------------------------------------------------------------- paths of blobs and manifests

  /** Past a text whose only manifest separator is at its start, if anywhere, nothing without a slash makes another. */
  lemma NoLaterSeparator(head: string, tail: string)
    requires Index(head, DockerManifest.SEPARATOR) <= 0 && '/' !in tail
    ensures Index(head + tail, DockerManifest.SEPARATOR) <= 0
  {
    var sep, p := DockerManifest.SEPARATOR, head + tail;
    var j := Index(p, sep);
    if j > 0 {
      assert p[j..j + |sep|][|sep| - 1] == p[j + |sep| - 1] == '/';
      OccursInPrefix(head, tail, sep, j);
      OccursInPrefix(head, tail, sep, 0);
    }
  }

  /** A manifest's path has a separator after its name and none before. */
  lemma ManifestTailHasSeparator(name: string, tag: string, q: string)
    requires DockerManifest.Routable(name) && name != "" && q == (name + DockerManifest.SEPARATOR) + tag
    ensures Index(q, DockerManifest.SEPARATOR) > 0
  {
    var sep := DockerManifest.SEPARATOR;
    var head := name + sep;
    assert OccursAt(head, sep, |name|);
    OccursInPrefix(head, tag, sep, |name|);
    OccursInPrefix(head, tag, sep, 0);
  }

  /** Blob rows are never at the path of an image's manifest. */
  lemma BlobPathsApart(blobName: string, digest: string, name: string, tag: string)
    requires BlobName(blobName) && '/' !in digest && DockerManifest.Routable(name) && name != ""
    ensures DockerUpload.RefPath(blobName, digest) != DockerManifest.ManifestPath(name, tag)
  {
    var q := (blobName + DockerRoute.BLOBS) + digest;
    var m := (name + DockerManifest.SEPARATOR) + tag;
    NoLaterSeparator(blobName + DockerRoute.BLOBS, digest);
    ManifestTailHasSeparator(name, tag, m);
    RefsJoin(blobName, digest, name, tag);
    Joins("refs/", q);
    Joins("refs/", m);
  }

  lemma RefsJoin(blobName: string, digest: string, name: string, tag: string)
    ensures DockerUpload.RefPath(blobName, digest) == "refs/" + ((blobName + DockerRoute.BLOBS) + digest)
    ensures DockerManifest.ManifestPath(name, tag) == "refs/" + ((name + DockerManifest.SEPARATOR) + tag)
  {
  }

  lemma BlobRowApart(digest: string, name: string, tag: string)
    ensures DockerUpload.BlobPath(digest) != DockerManifest.ManifestPath(name, tag)
  {
    assert DockerUpload.BlobPath(digest)[0] == 'b' && DockerManifest.ManifestPath(name, tag)[0] == 'r';
  }

  lemma DigestHasNoSlash(body: Bytes)
    ensures '/' !in DigestOf(body)
  {
    var hex := Sha256Hex(body);
    forall i | 0 <= i < |hex| ensures hex[i] != '/' { assert IsLowerHex(hex[i]); }
  }

  lemma LookedAtDigestHasNoSlash(d: string)
    requires LooksLikeDigest(d)
    ensures '/' !in d
  {
    SplitAt(d, 7);
    forall i | 0 <= i < |d[7..]| ensures d[7..][i] != '/' { assert IsLowerHex(d[7..][i]); }
    assert d == ALGORITHM + d[7..];
  }

  // ---------------------------------------------------------------- what a request does to a tag

  /** The digest a tag's row names. */
  function DigestAt(rows: Rows, repoId: string, name: string, tag: string): Option<string> {
    var a := LookUp(rows, repoId, DockerManifest.ManifestPath(name, tag));
    if a.Some? then Some(a.value.digest) else None
  }

  /**
   What a request says about a tag: nothing, that it is unbound, or that it is bound to a
   digest. A fetched manifest is also bound under whatever the upstream calls its digest.
   */
  function Effect(s: State, r: Request, name: string, tag: string): Option<Option<string>> {
    match r
    case Manifest(m) =>
      if m.name != name || m.reference != tag then None
      else if DockerManifest.BindsReference(s.world, m) then Some(Some(DigestOf(DockerManifest.Body(m.raw))))
      else if DockerManifest.Unbinds(m) then Some(None)
      else None
    case FetchManifest(n, reference, upstream, env) =>
      if n != name || !DockerUpload.ValidName(n) || upstream.None? then None
      else if PutBlob(s.world, upstream.value.body, env.nonce, env.faults).1.Err? then None
      else
        var d := DockerProxy.ManifestDigest(upstream.value);
        if (reference == tag && env.tagOk) || (d == tag && env.rowOk) then Some(Some(d)) else None
    case _ => None
  }

  /** The digest a tag is bound to after a run, read off the requests. */
  ghost function BoundDigest(s: State, repoId: string, rs: seq<Request>, name: string, tag: string): Option<string> {
    if rs == [] then None
    else
      var e := Effect(After(s, repoId, rs[..|rs| - 1]), rs[|rs| - 1], name, tag);
      if e.Some? then e.value else BoundDigest(s, repoId, rs[..|rs| - 1], name, tag)
  }

  lemma UploadLeavesTags(s: State, repoId: string, u: DockerUpload.Request, name: string, tag: string)
    requires NamesOk(Upload(u)) && name != "" && DockerManifest.Routable(name)
    ensures var path := DockerManifest.ManifestPath(name, tag);
            LookUp(Handle(s, repoId, Upload(u)).world.rows, repoId, path) == LookUp(s.world.rows, repoId, path)
  {
    forall body: Bytes ensures DockerUpload.BlobPath(DigestOf(body)) != DockerManifest.ManifestPath(name, tag) {
      BlobRowApart(DigestOf(body), name, tag);
    }
    if u.Start? || u.Finish? {
      forall body: Bytes
        ensures DockerUpload.RefPath(u.name, DigestOf(body)) != DockerManifest.ManifestPath(name, tag)
      {
        DigestHasNoSlash(body);
        BlobPathsApart(u.name, DigestOf(body), name, tag);
      }
    }
    DockerUpload.HandleTouches(s, repoId, u, DockerManifest.ManifestPath(name, tag));
  }

  lemma BlobRequestLeavesTags(s: State, repoId: string, r: Request, name: string, tag: string)
    requires (r.DeleteBlob? || r.FetchBlob?) && NamesOk(r) && name != "" && DockerManifest.Routable(name)
    ensures var path := DockerManifest.ManifestPath(name, tag);
            LookUp(Handle(s, repoId, r).world.rows, repoId, path) == LookUp(s.world.rows, repoId, path)
  {
    if LooksLikeDigest(r.digest) {
      LookedAtDigestHasNoSlash(r.digest);
      BlobPathsApart(r.name, r.digest, name, tag);
    }
  }

  lemma FetchManifestTags(s: State, repoId: string, r: Request, name: string, tag: string)
    requires r.FetchManifest? && NamesOk(r) && DockerManifest.Routable(name) && !DockerManifest.IsDigestRef(tag)
    ensures var e := Effect(s, r, name, tag);
            DigestAt(Handle(s, repoId, r).world.rows, repoId, name, tag) ==
            if e.Some? then e.value else DigestAt(s.world.rows, repoId, name, tag)
  {
    var path := DockerManifest.ManifestPath(name, tag);
    if DockerManifest.ManifestPath(r.name, r.reference) == path {
      DockerManifest.PathInjective(r.name, r.reference, name, tag);
    }
    if r.upstream.Some? {
      var d := DockerProxy.ManifestDigest(r.upstream.value);
      if DockerManifest.ManifestPath(r.name, d) == path { DockerManifest.PathInjective(r.name, d, name, tag); }
    }
  }

  /** One request of any kind changes a tag's row as its effect says, and otherwise not at all. */
  lemma StepFollowsEffect(s: State, repoId: string, r: Request, name: string, tag: string)
    requires NamesOk(r) && name != "" && DockerManifest.Routable(name) && !DockerManifest.IsDigestRef(tag)
    ensures var e := Effect(s, r, name, tag);
            DigestAt(Handle(s, repoId, r).world.rows, repoId, name, tag) ==
            if e.Some? then e.value else DigestAt(s.world.rows, repoId, name, tag)
  {
    match r
    case Upload(u) => UploadLeavesTags(s, repoId, u, name, tag);
    case Manifest(m) => DockerManifest.TagRowStep(s.world, repoId, m, name, tag);
    case FetchManifest(_, _, _, _) => FetchManifestTags(s, repoId, r, name, tag);
    case _ => BlobRequestLeavesTags(s, repoId, r, name, tag);
  }

  /**
   For every run of uploads, manifest requests, blob deletes and proxy fetches, a tag's
   row names exactly the digest the requests last bound it to, and is absent if they
   did not or have unbound it since. Uploads never come between, whatever name they use.
   */
  lemma {:induction false} RowIsBoundDigest(s: State, repoId: string, rs: seq<Request>, name: string, tag: string)
    requires AllNamesOk(rs) && name != "" && DockerManifest.Routable(name) && !DockerManifest.IsDigestRef(tag)
    requires DigestAt(s.world.rows, repoId, name, tag) == None
    ensures DigestAt(After(s, repoId, rs).world.rows, repoId, name, tag) == BoundDigest(s, repoId, rs, name, tag)
  {
    if rs != [] {
      var front := rs[..|rs| - 1];
      assert forall i :: 0 <= i < |front| ==> front[i] == rs[i];
      RowIsBoundDigest(s, repoId, front, name, tag);
      StepFollowsEffect(After(s, repoId, front), repoId, rs[|rs| - 1], name, tag);
    }
  }

  // ---------------------------------------------------------------- agreement of the two stores

  /**
   What an upstream sends makes the request harm another: a blob with the wrong content,
   discarded although a row refers to that content, or a manifest recorded under a digest
   that is neither its own nor of any blob stored.
   */
  ghost predicate Misled(s: State, r: Request) {
    match r
    case FetchBlob(name, digest, upstream, env) =>
      && DockerUpload.ValidName(name) && LooksLikeDigest(digest)
      && DockerProxy.Discards(s.world, digest, upstream, env)
      && DockerProxy.Referenced(s.world.rows, DigestOf(upstream.value.body))
    case FetchManifest(name, reference, upstream, env) =>
      && DockerUpload.ValidName(name) && DockerProxy.Records(s.world, reference, upstream, env)
      && upstream.value.digest != "" && upstream.value.digest != DigestOf(upstream.value.body)
      && !HasBlob(s.world.objects, upstream.value.digest)
    case _ => false
  }

  lemma DropRowSound(w: World, ok: bool, repoId: string, path: string)
    requires Sound(w)
    ensures Sound(DropRow(w, ok, repoId, path))
  {
  }

  lemma StepSoundIff(s: State, repoId: string, r: Request)
    requires Sound(s.world)
    ensures Sound(Handle(s, repoId, r).world) <==> !Misled(s, r)
  {
    match r
    case Upload(u) => DockerUpload.HandleSound(s, repoId, u);
    case Manifest(m) => DockerManifest.HandleSound(s.world, repoId, m);
    case DeleteBlob(name, digest, ok) => DropRowSound(s.world, ok, repoId, DockerUpload.RefPath(name, digest));
    case FetchBlob(name, digest, upstream, env) =>
      DockerProxy.FetchBlobSoundIff(s.world, repoId, name, digest, upstream, env);
    case FetchManifest(name, reference, upstream, env) =>
      DockerProxy.FetchManifestSoundIff(s.world, repoId, name, reference, upstream, env);
  }

  ghost predicate AlwaysSound(s: State, repoId: string, rs: seq<Request>) {
    Sound(After(s, repoId, rs).world) && (rs != [] ==> AlwaysSound(s, repoId, rs[..|rs| - 1]))
  }

  ghost predicate NeverMisled(s: State, repoId: string, rs: seq<Request>) {
    rs == [] || (NeverMisled(s, repoId, rs[..|rs| - 1]) && !Misled(After(s, repoId, rs[..|rs| - 1]), rs[|rs| - 1]))
  }

  /** Over every mixed run every row keeps its blob throughout, if and only if no upstream misleads a fetch. */
  lemma {:induction false} RunSoundIff(s: State, repoId: string, rs: seq<Request>)
    requires Sound(s.world)
    ensures AlwaysSound(s, repoId, rs) <==> NeverMisled(s, repoId, rs)
  {
    if rs != [] {
      var front := rs[..|rs| - 1];
      RunSoundIff(s, repoId, front);
      if Sound(After(s, repoId, front).world) { StepSoundIff(After(s, repoId, front), repoId, rs[|rs| - 1]); }
      if AlwaysSound(s, repoId, front) { assert Sound(After(s, repoId, front).world); }
    }
  }

  // ---------------------------------------------------------------- hosted repositories

  /** Everything but fetching from an upstream. */
  predicate Hosted(r: Request) {
    r.Upload? || r.Manifest? || r.DeleteBlob?
  }

  predicate AllHosted(rs: seq<Request>) {
    forall i :: 0 <= i < |rs| ==> Hosted(rs[i])
  }

  lemma {:induction false} HostedNeverMisled(s: State, repoId: string, rs: seq<Request>)
    requires AllHosted(rs)
    ensures NeverMisled(s, repoId, rs)
  {
    if rs != [] {
      assert forall i :: 0 <= i < |rs| - 1 ==> rs[..|rs| - 1][i] == rs[i];
      HostedNeverMisled(s, repoId, rs[..|rs| - 1]);
    }
  }

  /** So over every mixed run of a hosted repository, whatever fails on the way, every row keeps its blob. */
  lemma {:induction false} HostedRunSound(s: State, repoId: string, rs: seq<Request>)
    requires Sound(s.world) && AllHosted(rs)
    ensures Sound(After(s, repoId, rs).world)
  {
    HostedNeverMisled(s, repoId, rs);
    RunSoundIff(s, repoId, rs);
  }

  /** The document most recently bound to a tag and not unbound since, read off the requests. */
  ghost function LastPut(s: State, repoId: string, rs: seq<Request>, name: string, tag: string): Option<Bytes> {
    if rs == [] then None
    else
      var r := rs[|rs| - 1];
      if !r.Manifest? || r.m.name != name || r.m.reference != tag then LastPut(s, repoId, rs[..|rs| - 1], name, tag)
      else if DockerManifest.BindsReference(After(s, repoId, rs[..|rs| - 1]).world, r.m) then
        Some(DockerManifest.Body(r.m.raw))
      else if DockerManifest.Unbinds(r.m) then None
      else LastPut(s, repoId, rs[..|rs| - 1], name, tag)
  }

  /** The documents put during the run are among byte strings without collisions. */
  ghost predicate BodiesWithin(rs: seq<Request>, u: iset<Bytes>) {
    forall i :: 0 <= i < |rs| && rs[i].Manifest? && rs[i].m.Put? ==> DockerManifest.Body(rs[i].m.raw) in u
  }

  lemma {:induction false} LastPutIsBound(s: State, repoId: string, rs: seq<Request>, name: string, tag: string,
                                          u: iset<Bytes>)
    requires AllHosted(rs) && BodiesWithin(rs, u)
    ensures var last := LastPut(s, repoId, rs, name, tag);
            && BoundDigest(s, repoId, rs, name, tag) == (if last.Some? then Some(DigestOf(last.value)) else None)
            && (last.Some? ==> last.value in u)
  {
    if rs != [] {
      var front := rs[..|rs| - 1];
      assert forall i :: 0 <= i < |front| ==> front[i] == rs[i];
      LastPutIsBound(s, repoId, front, name, tag, u);
    }
  }

  lemma PutKeepsBlob(w: World, body: Bytes, nonce: string, f: PutFaults, d: string)
    requires Intact(w.objects)
    ensures var (w', r) := PutBlob(w, body, nonce, f);
            && Intact(w'.objects)
            && (HasBlob(w.objects, d) ==> HasBlob(w'.objects, d))
            && (r.Ok? ==> HasBlob(w'.objects, DigestOf(body)))
  {
    PutKeepsBlobs(w.objects, body, nonce, f);
  }

  lemma UploadKeepsBlobs(s: State, repoId: string, u: DockerUpload.Request, d: string)
    requires Intact(s.world.objects)
    ensures var w := DockerUpload.Handle(s, repoId, u).0.world;
            Intact(w.objects) && (HasBlob(s.world.objects, d) ==> HasBlob(w.objects, d))
  {
    var bytes := DockerUpload.HandleFinalizes(s, repoId, u);
    if u.Start? || u.Finish? { PutKeepsBlob(s.world, bytes, u.env.nonce, u.env.faults, d); }
  }

  lemma ManifestObjects(w: World, repoId: string, m: DockerManifest.Request)
    ensures var objects := DockerManifest.Handle(w, repoId, m).0.objects;
            || (objects == w.objects && !DockerManifest.BindsReference(w, m))
            || (m.Put? &&
                objects == PutBlob(w, DockerManifest.Body(m.raw), m.env.nonce, m.env.faults).0.objects)
  {
  }

  lemma ManifestKeepsBlobs(w: World, repoId: string, m: DockerManifest.Request, d: string)
    requires Intact(w.objects)
    ensures var w' := DockerManifest.Handle(w, repoId, m).0;
            && Intact(w'.objects)
            && (HasBlob(w.objects, d) ==> HasBlob(w'.objects, d))
            && (DockerManifest.BindsReference(w, m) ==> HasBlob(w'.objects, DigestOf(DockerManifest.Body(m.raw))))
  {
    ManifestObjects(w, repoId, m);
    if m.Put? { PutKeepsBlob(w, DockerManifest.Body(m.raw), m.env.nonce, m.env.faults, d); }
  }

  /** No request of a hosted repository takes a blob away, and one that binds a tag has stored its document. */
  lemma HostedStepKeepsBlobs(s: State, repoId: string, r: Request, d: string)
    requires Intact(s.world.objects) && Hosted(r)
    ensures var t := Handle(s, repoId, r);
            && Intact(t.world.objects)
            && (HasBlob(s.world.objects, d) ==> HasBlob(t.world.objects, d))
            && (r.Manifest? && DockerManifest.BindsReference(s.world, r.m) ==>
                  HasBlob(t.world.objects, DigestOf(DockerManifest.Body(r.m.raw))))
  {
    match r
    case Upload(u) => UploadKeepsBlobs(s, repoId, u, d);
    case Manifest(m) => ManifestKeepsBlobs(s.world, repoId, m, d);
    case DeleteBlob(_, _, _) =>
  }

  lemma {:induction false} BoundDigestHasBlob(s: State, repoId: string, rs: seq<Request>, name: string, tag: string)
    requires Intact(s.world.objects) && AllHosted(rs)
    ensures var objects := After(s, repoId, rs).world.objects;
            var bound := BoundDigest(s, repoId, rs, name, tag);
            Intact(objects) && (bound.Some? ==> HasBlob(objects, bound.value))
  {
    if rs != [] {
      var front, r := rs[..|rs| - 1], rs[|rs| - 1];
      assert forall i :: 0 <= i < |front| ==> front[i] == rs[i];
      var before := BoundDigest(s, repoId, front, name, tag);
      BoundDigestHasBlob(s, repoId, front, name, tag);
      HostedStepKeepsBlobs(After(s, repoId, front), repoId, r, if before.Some? then before.value else "");
    }
  }

  /**
   Over every mixed run of uploads, manifest requests and deletes on a hosted repository,
   GET by tag returns the document last put to that tag and not deleted since.
   */
  lemma GetByTagIsLastPut(repos: Repos, s: State, repoId: string, rs: seq<Request>, name: string, tag: string,
                          f: ReadFaults, u: iset<Bytes>)
    requires repoId in repos.byId && !repos.byId[repoId].kind.Group?
    requires Intact(s.world.objects) && AllHosted(rs) && AllNamesOk(rs)
    requires name != "" && DockerManifest.Routable(name) && !DockerManifest.IsDigestRef(tag)
    requires DigestAt(s.world.rows, repoId, name, tag) == None
    requires CollisionFree(u) && BlobsWithin(After(s, repoId, rs).world.objects, u) && BodiesWithin(rs, u)
    ensures DockerManifest.Serve(repos, After(s, repoId, rs).world, repoId, name, tag, f) ==
            if f.lookup.direct || f.blob then None else LastPut(s, repoId, rs, name, tag)
  {
    var t := After(s, repoId, rs).world;
    RowIsBoundDigest(s, repoId, rs, name, tag);
    LastPutIsBound(s, repoId, rs, name, tag, u);
    BoundDigestHasBlob(s, repoId, rs, name, tag);
    DockerManifest.ServeDirect(repos, t, repoId, name, tag, f);
  }

  /**
   Through a group, too: a GET returns what was last put to the tag in the repository itself
   (place 0) or in its n-th configured member (place `n + 1`), if no earlier place has the tag.
   */
  lemma GroupGetIsLastPut(repos: Repos, s: State, group: string, place: nat, repoId: string, rs: seq<Request>,
                          name: string, tag: string, f: ReadFaults, u: iset<Bytes>)
    requires Groups.Asked(repos, group, f.lookup.members, place) == Some(repoId)
    requires Intact(s.world.objects) && AllHosted(rs) && AllNamesOk(rs)
    requires name != "" && DockerManifest.Routable(name) && !DockerManifest.IsDigestRef(tag)
    requires DigestAt(s.world.rows, repoId, name, tag) == None && LastPut(s, repoId, rs, name, tag).Some?
    requires CollisionFree(u) && BlobsWithin(After(s, repoId, rs).world.objects, u) && BodiesWithin(rs, u)
    requires forall earlier: nat :: earlier < place ==>
               !Groups.HasAt(repos, After(s, repoId, rs).world.rows, group, f.lookup.members,
                             DockerManifest.ManifestPath(name, tag), earlier)
    ensures DockerManifest.Serve(repos, After(s, repoId, rs).world, group, name, tag, f) ==
            if f.lookup.direct || (f.lookup.parent && place > 0) || f.blob then None
            else LastPut(s, repoId, rs, name, tag)
  {
    var t := After(s, repoId, rs).world;
    RowIsBoundDigest(s, repoId, rs, name, tag);
    LastPutIsBound(s, repoId, rs, name, tag, u);
    BoundDigestHasBlob(s, repoId, rs, name, tag);
    var digest := DigestAt(t.rows, repoId, name, tag).value;
    ServeAt(repos, t, group, place, repoId, name, tag, f);
    assert HasBlob(t.objects, digest) && DigestOf(t.objects[KeyFor(digest)]) == digest;
  }

  lemma ServeAt(repos: Repos, w: World, group: string, place: nat, repoId: string, name: string, reference: string,
                f: ReadFaults)
    requires Groups.Asked(repos, group, f.lookup.members, place) == Some(repoId)
    requires DigestAt(w.rows, repoId, name, reference).Some?
    requires forall earlier: nat :: earlier < place ==>
               !Groups.HasAt(repos, w.rows, group, f.lookup.members, DockerManifest.ManifestPath(name, reference),
                             earlier)
    ensures var digest := DigestAt(w.rows, repoId, name, reference).value;
            DockerManifest.Serve(repos, w, group, name, reference, f) ==
            if f.lookup.direct || (f.lookup.parent && place > 0) || f.blob || !HasBlob(w.objects, digest) then None
            else Some(w.objects[KeyFor(digest)])
  {
    var path := DockerManifest.ManifestPath(name, reference);
    assert Groups.FirstAt(repos, w.rows, group, f.lookup.members, path, place);
    Groups.ResolvesFirstPlace(repos, w.rows, group, path, f.lookup, w.rows[(repoId, path)]);
    if place > 0 { assert !Groups.HasAt(repos, w.rows, group, f.lookup.members, path, 0); }
  }

  /** Rows at digest references of named images carry that very digest. */
  ghost predicate DigestRowsTrue(rows: Rows, repoId: string) {
    forall name, d :: name != "" && DockerManifest.Routable(name) && DockerManifest.IsDigestRef(d)
                      && (repoId, DockerManifest.ManifestPath(name, d)) in rows ==>
      rows[(repoId, DockerManifest.ManifestPath(name, d))].digest == d
  }

  lemma HostedStepKeepsDigestRows(s: State, repoId: string, r: Request)
    requires DigestRowsTrue(s.world.rows, repoId) && Hosted(r) && NamesOk(r)
    ensures DigestRowsTrue(Handle(s, repoId, r).world.rows, repoId)
  {
    var rows := Handle(s, repoId, r).world.rows;
    forall name, d | name != "" && DockerManifest.Routable(name) && DockerManifest.IsDigestRef(d)
                     && (repoId, DockerManifest.ManifestPath(name, d)) in rows
      ensures rows[(repoId, DockerManifest.ManifestPath(name, d))].digest == d
    {
      match r
      case Upload(u) => UploadLeavesTags(s, repoId, u, name, d);
      case DeleteBlob(_, _, _) => BlobRequestLeavesTags(s, repoId, r, name, d);
      case Manifest(m) => DockerManifest.DigestRowStep(s.world, repoId, m, name, d);
    }
  }

  lemma {:induction false} HostedRunKeepsDigestRows(s: State, repoId: string, rs: seq<Request>)
    requires DigestRowsTrue(s.world.rows, repoId) && AllHosted(rs) && AllNamesOk(rs)
    ensures DigestRowsTrue(After(s, repoId, rs).world.rows, repoId)
  {
    if rs != [] {
      var front := rs[..|rs| - 1];
      assert forall i :: 0 <= i < |front| ==> front[i] == rs[i];
      HostedRunKeepsDigestRows(s, repoId, front);
      HostedStepKeepsDigestRows(After(s, repoId, front), repoId, rs[|rs| - 1]);
    }
  }

  /** After any mixed run, GET by digest serves bytes with that hash, and serves whenever the digest is bound. */
  lemma GetByDigestIsTrue(repos: Repos, s: State, repoId: string, rs: seq<Request>, name: string, d: string,
                          f: ReadFaults)
    requires repoId in repos.byId && !repos.byId[repoId].kind.Group?
    requires Sound(s.world) && DigestRowsTrue(s.world.rows, repoId) && AllHosted(rs) && AllNamesOk(rs)
    requires name != "" && DockerManifest.Routable(name) && DockerManifest.IsDigestRef(d)
    ensures var t := After(s, repoId, rs).world;
            var got := DockerManifest.Serve(repos, t, repoId, name, d, f);
            && (got.Some? ==> DigestOf(got.value) == d)
            && (got.Some? <==> !f.lookup.direct && !f.blob && (repoId, DockerManifest.ManifestPath(name, d)) in t.rows)
  {
    var t := After(s, repoId, rs).world;
    HostedRunSound(s, repoId, rs);
    HostedRunKeepsDigestRows(s, repoId, rs);
    DockerManifest.ServeDirect(repos, t, repoId, name, d, f);
    if (repoId, DockerManifest.ManifestPath(name, d)) in t.rows { assert HasBlob(t.objects, d); }
  }
}
