/**
 Blobs by digest: a GET asks the blob store and not the rows, in proxy mode the upstream
 after a miss; a DELETE drops the image's row and leaves the blob to the collector.
 */
module DockerBlobs {
  import opened Sequences
  import opened Storage
  import opened Cas
  import opened Artifacts
  import opened Wrappers
  import opened Registry
  import opened DockerRuns
  import DockerUpload
  import DockerManifest
  import DockerProxy
  import DockerSessions

  /** What fails of a GET: the first read, and the one after a fetch. */
  datatype Reads = Reads(first: bool, again: bool)

  predicate WellFormed(name: string, digest: string) {
    DockerUpload.ValidName(name) && LooksLikeDigest(digest)
  }

  /** GET: `upstream` is none for a repository that is no proxy, and for an upstream that fails. */
  function ServeBlob(w: World, repoId: string, name: string, digest: string,
                     upstream: Option<DockerProxy.Response>, env: DockerProxy.Env, f: Reads): (World, Option<Bytes>)
  {
    if !WellFormed(name, digest) || f.first then (w, None)
    else if HasBlob(w.objects, digest) then (w, Some(w.objects[KeyFor(digest)]))
    else
      var (w1, size) := DockerProxy.FetchBlob(w, repoId, name, digest, upstream, env);
      (w1, if size.Some? && !f.again && HasBlob(w1.objects, digest) then Some(w1.objects[KeyFor(digest)]) else None)
  }

  class Handler {
    const proxy: DockerProxy.Handler

    ghost predicate Valid()
      reads proxy.cas.b, proxy.store
    {
      proxy.Valid()
    }

    constructor (proxy: DockerProxy.Handler)
      requires proxy.Valid()
      ensures Valid() && this.proxy == proxy
    {
      this.proxy := proxy;
    }

    method GetBlob(name: string, digest: string, upstream: Option<DockerProxy.Response>, env: DockerProxy.Env, f: Reads)
      returns (r: Option<Bytes>)
      requires Valid() && LowerHex(env.nonce, 32)
      requires env.rowOk ==> proxy.repoId in proxy.store.repos.byId
      modifies proxy.cas.b, proxy.store`rows
      ensures Valid()
      ensures (proxy.Contents(), r) == ServeBlob(old(proxy.Contents()), proxy.repoId, name, digest, upstream, env, f)
    {
      if !DockerUpload.ValidName(name) || !LooksLikeDigest(digest) { return None; }
      LookedAtDigestIsValid(digest);
      var blob := proxy.cas.Get(digest, f.first);
      if blob == Err(NotFound) {
        var size := proxy.ProxyFetchBlob(name, digest, upstream, env);
        if size.Some? { blob := proxy.cas.Get(digest, f.again); }
      }
      r := if blob.Ok? then Some(blob.value) else None;
    }

    /** Answered 202 whenever the name and the digest are well-formed; a database error is ignored. */
    method DeleteBlob(name: string, digest: string, ok: bool) returns (accepted: bool)
      requires Valid()
      modifies proxy.store`rows
      ensures Valid()
      ensures accepted <==> WellFormed(name, digest)
      ensures proxy.Contents() ==
                if accepted then DropRow(old(proxy.Contents()), ok, proxy.repoId, DockerUpload.RefPath(name, digest))
                else old(proxy.Contents())
    {
      accepted := DockerUpload.ValidName(name) && LooksLikeDigest(digest);
      if accepted {
        var _ := proxy.store.DeleteArtifact(proxy.repoId, DockerUpload.RefPath(name, digest), !ok);
      }
    }
  }

  lemma LookedAtDigestIsValid(d: string)
    requires LooksLikeDigest(d)
    ensures ValidDigest(d) && |d| == 71
  {
    SplitAt(d, 7);
    forall i | 7 <= i < |d| ensures IsHex(d[i]) { assert d[i] == d[7..][i - 7]; }
  }

  // ---------------------------------------------------------------- GET

  /**
   What a GET serves always has the digest asked for. It serves exactly if the read works and
   the blob is there, or is not and an upstream sends content with that very digest, which
   can be stored and read back.
   */
  lemma ServesIff(w: World, repoId: string, name: string, digest: string,
                  upstream: Option<DockerProxy.Response>, env: DockerProxy.Env, f: Reads)
    requires Sound(w) && WellFormed(name, digest)
    ensures var (w', got) := ServeBlob(w, repoId, name, digest, upstream, env, f);
            && (got.Some? ==> DigestOf(got.value) == digest)
            && (got.Some? <==>
                  && !f.first
                  && (HasBlob(w.objects, digest) ||
                      (&& upstream.Some? && DigestOf(upstream.value.body) == digest
                       && CanStore(w.objects, upstream.value.body, env.faults) && !f.again)))
            && (f.first || HasBlob(w.objects, digest) ==> w' == w)
  {
    LookedAtDigestIsValid(digest);
    DockerProxy.FetchSucceedsIff(w, repoId, name, digest, upstream, env);
    DockerProxy.FetchedBlobIsTrue(w, repoId, name, digest, upstream, env);
  }

  /**
   In a hosted repository nothing but a collection takes a blob away: whatever is uploaded,
   put or deleted, a GET that works serves it as before, also after its own DELETE.
   */
  lemma {:induction false} BlobsOutliveDeletes(s: State, repoId: string, rs: seq<Request>, d: string, u: iset<Bytes>)
    requires Intact(s.world.objects) && AllHosted(rs) && HasBlob(s.world.objects, d)
    requires CollisionFree(u) && BlobsWithin(s.world.objects, u) && BlobsWithin(After(s, repoId, rs).world.objects, u)
    ensures var t := After(s, repoId, rs).world;
            Intact(t.objects) && HasBlob(t.objects, d) && t.objects[KeyFor(d)] == s.world.objects[KeyFor(d)]
  {
    HasBlobStays(s, repoId, rs, d);
  }

  lemma {:induction false} HasBlobStays(s: State, repoId: string, rs: seq<Request>, d: string)
    requires Intact(s.world.objects) && AllHosted(rs) && HasBlob(s.world.objects, d)
    ensures Intact(After(s, repoId, rs).world.objects) && HasBlob(After(s, repoId, rs).world.objects, d)
  {
    if rs != [] {
      var front := rs[..|rs| - 1];
      assert forall i :: 0 <= i < |front| ==> front[i] == rs[i];
      HasBlobStays(s, repoId, front, d);
      HostedStepKeepsBlobs(After(s, repoId, front), repoId, rs[|rs| - 1], d);
    }
  }

  // ---------------------------------------------------------------- the row of a blob under an image's name

  predicate HasRow(rows: Rows, repoId: string, name: string, d: string) {
    (repoId, DockerUpload.RefPath(name, d)) in rows
  }

  /** The request wrote the row: an upload of this blob under this name answered 201, or a fetch that recorded it. */
  predicate Writes(s: State, repoId: string, r: Request, name: string, d: string) {
    match r
    case Upload(u) =>
      && (u.Start? || u.Finish?) && u.name == name && u.digest == d
      && DockerUpload.Handle(s, repoId, u).1 == DockerUpload.Created
    case FetchBlob(n, digest, upstream, env) =>
      && n == name && digest == d && WellFormed(name, d) && upstream.Some?
      && CanStore(s.world.objects, upstream.value.body, env.faults)
      && DigestOf(upstream.value.body) == d && env.rowOk
    case _ => false
  }

  predicate Deletes(r: Request, name: string, d: string) {
    r.DeleteBlob? && r.name == name && r.digest == d && r.ok && WellFormed(name, d)
  }

  /** Read off the requests and their answers: the row was written, and not deleted since. */
  ghost predicate Recorded(s: State, repoId: string, rs: seq<Request>, name: string, d: string) {
    if rs == [] then HasRow(s.world.rows, repoId, name, d)
    else
      || Writes(After(s, repoId, rs[..|rs| - 1]), repoId, rs[|rs| - 1], name, d)
      || (!Deletes(rs[|rs| - 1], name, d) && Recorded(s, repoId, rs[..|rs| - 1], name, d))
  }

  /** Digests have one length, so a blob's path determines its name and digest. */
  lemma RefPathInjective(n: string, d: string, n': string, d': string)
    requires |d| == |d'| && DockerUpload.RefPath(n, d) == DockerUpload.RefPath(n', d')
    ensures n == n' && d == d'
  {
    RefPathParts(n, d);
    RefPathParts(n', d');
  }

  lemma RefPathParts(n: string, d: string)
    ensures var p := DockerUpload.RefPath(n, d);
            |p| == |n| + |d| + 12 && p[5..5 + |n|] == n && p[|p| - |d|..] == d
  {
  }

  lemma UploadRow(s: State, repoId: string, u: DockerUpload.Request, name: string, d: string)
    requires |d| == 71
    ensures HasRow(DockerUpload.Handle(s, repoId, u).0.world.rows, repoId, name, d) <==>
            Writes(s, repoId, Upload(u), name, d) || HasRow(s.world.rows, repoId, name, d)
  {
    var path := DockerUpload.RefPath(name, d);
    assert path[0] == 'r';
    var bytes := DockerUpload.HandleFinalizes(s, repoId, u);
    if u.Start? || u.Finish? {
      assert DockerUpload.BlobPath(u.digest)[0] == 'b';
      if DockerUpload.Handle(s, repoId, u).1 == DockerUpload.Created {
        CreatedRow(s, repoId, u, (repoId, path));
        if path == DockerUpload.RefPath(u.name, u.digest) {
          RefPathInjective(name, d, u.name, u.digest);
        }
      } else {
        DockerSessions.RefusedWritesNoReference(s, repoId, u, (repoId, path));
      }
    }
  }

  /** An upload answered 201 under this digest has written two rows and no others. */
  lemma CreatedRow(s: State, repoId: string, u: DockerUpload.Request, k: (string, string))
    requires (u.Start? || u.Finish?) && DockerUpload.Handle(s, repoId, u).1 == DockerUpload.Created
    ensures |u.digest| == 71
    ensures var rows := DockerUpload.Handle(s, repoId, u).0.world.rows;
            var blob, ref := DockerUpload.BlobPath(u.digest), DockerUpload.RefPath(u.name, u.digest);
            var written := {(repoId, blob), (repoId, ref)};
            && (k in rows <==> k in s.world.rows || k in written)
            && (k in s.world.rows && k !in written ==> rows[k] == s.world.rows[k])
  {
    var bytes := DockerSessions.CreatedFinalizes(s, repoId, u);
    DockerSessions.FinalizedRows(s.world, repoId, u.name, bytes, u.digest, u.env, k);
  }

  lemma FetchRow(s: State, repoId: string, r: Request, name: string, d: string)
    requires r.FetchBlob? && |d| == 71
    ensures HasRow(Handle(s, repoId, r).world.rows, repoId, name, d) <==>
            Writes(s, repoId, r, name, d) || HasRow(s.world.rows, repoId, name, d)
  {
    if WellFormed(r.name, r.digest) {
      LookedAtDigestIsValid(r.digest);
      DockerProxy.FetchSucceedsIff(s.world, repoId, r.name, r.digest, r.upstream, r.env);
      if DockerUpload.RefPath(r.name, r.digest) == DockerUpload.RefPath(name, d) {
        RefPathInjective(r.name, r.digest, name, d);
      }
    }
  }

  lemma DeleteRow(s: State, repoId: string, r: Request, name: string, d: string)
    requires r.DeleteBlob? && |d| == 71
    ensures HasRow(Handle(s, repoId, r).world.rows, repoId, name, d) <==>
            HasRow(s.world.rows, repoId, name, d) && !Deletes(r, name, d)
  {
    if WellFormed(r.name, r.digest) {
      LookedAtDigestIsValid(r.digest);
      if DockerUpload.RefPath(r.name, r.digest) == DockerUpload.RefPath(name, d) {
        RefPathInjective(r.name, r.digest, name, d);
      }
    }
  }

  /** Requests for manifests never touch the row of a blob. */
  lemma ManifestLeavesBlobRows(s: State, repoId: string, r: Request, name: string, d: string)
    requires (r.Manifest? || r.FetchManifest?) && NamesOk(r) && BlobName(name) && '/' !in d
    ensures HasRow(Handle(s, repoId, r).world.rows, repoId, name, d) <==> HasRow(s.world.rows, repoId, name, d)
  {
    var n := if r.Manifest? then r.m.name else r.name;
    forall reference ensures DockerUpload.RefPath(name, d) != DockerManifest.ManifestPath(n, reference) {
      BlobPathsApart(name, d, n, reference);
    }
  }

  lemma BlobRowStep(s: State, repoId: string, r: Request, name: string, d: string)
    requires NamesOk(r) && BlobName(name) && LooksLikeDigest(d)
    ensures HasRow(Handle(s, repoId, r).world.rows, repoId, name, d) <==>
            || Writes(s, repoId, r, name, d)
            || (!Deletes(r, name, d) && HasRow(s.world.rows, repoId, name, d))
  {
    LookedAtDigestIsValid(d);
    LookedAtDigestHasNoSlash(d);
    match r
    case Upload(u) => UploadRow(s, repoId, u, name, d);
    case DeleteBlob(_, _, _) => DeleteRow(s, repoId, r, name, d);
    case FetchBlob(_, _, _, _) => FetchRow(s, repoId, r, name, d);
    case _ => ManifestLeavesBlobRows(s, repoId, r, name, d);
  }

  /**
   Over every mixed run, an image has the row of a blob exactly if an upload of it under this
   name was answered 201, or a fetch recorded it, or it was there at the start, and no DELETE
   that worked came after.
   */
  lemma {:induction false} RowIffRecorded(s: State, repoId: string, rs: seq<Request>, name: string, d: string)
    requires AllNamesOk(rs) && BlobName(name) && LooksLikeDigest(d)
    ensures HasRow(After(s, repoId, rs).world.rows, repoId, name, d) <==> Recorded(s, repoId, rs, name, d)
  {
    if rs != [] {
      var front := rs[..|rs| - 1];
      assert forall i :: 0 <= i < |front| ==> front[i] == rs[i];
      RowIffRecorded(s, repoId, front, name, d);
      BlobRowStep(After(s, repoId, front), repoId, rs[|rs| - 1], name, d);
    }
  }
}
