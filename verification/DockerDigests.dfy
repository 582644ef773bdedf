/**
 Digest references over mixed runs: which of them are bound is read off the requests and
 their answers, and a GET by a bound one returns the document with that hash.
 */
module DockerDigests {
  import opened Storage
  import opened Cas
  import opened Artifacts
  import opened Wrappers
  import opened Registry
  import opened DockerRuns
  import DockerUpload
  import DockerManifest
  import DockerProxy

  /** The request wrote the digest's row: a PUT of a document with it answered 201, or a fetch that recorded it. */
  predicate Writes(s: State, repoId: string, r: Request, name: string, d: string) {
    match r
    case Manifest(m) =>
      && m.Put? && m.name == name && DigestOf(DockerManifest.Body(m.raw)) == d
      && DockerManifest.Handle(s.world, repoId, m).1 == DockerManifest.Created
    case FetchManifest(n, _, upstream, env) =>
      && n == name && DockerUpload.ValidName(n) && upstream.Some?
      && CanStore(s.world.objects, upstream.value.body, env.faults)
      && DockerProxy.ManifestDigest(upstream.value) == d && env.rowOk
    case _ => false
  }

  /** A DELETE of this very reference answered 202. */
  predicate Deletes(s: State, repoId: string, r: Request, name: string, d: string) {
    && r.Manifest? && r.m.Delete? && r.m.name == name && r.m.reference == d
    && DockerManifest.Handle(s.world, repoId, r.m).1 == DockerManifest.Accepted
  }

  /** The request at this place wrote the row, and no later one deleted it. */
  ghost predicate LastsFrom(s: State, repoId: string, rs: seq<Request>, name: string, d: string, i: nat) {
    && i < |rs| && Writes(After(s, repoId, rs[..i]), repoId, rs[i], name, d)
    && NotDeletedSince(s, repoId, rs, name, d, i + 1)
  }

  ghost predicate NotDeletedSince(s: State, repoId: string, rs: seq<Request>, name: string, d: string, i: nat) {
    forall j :: i <= j < |rs| ==> !Deletes(After(s, repoId, rs[..j]), repoId, rs[j], name, d)
  }

  predicate BoundIn(rows: Rows, repoId: string, name: string, d: string) {
    (repoId, DockerManifest.ManifestPath(name, d)) in rows
  }

  lemma ManifestStep(w: World, repoId: string, m: DockerManifest.Request, name: string, d: string)
    requires DockerManifest.Routable(m.name) && DockerManifest.Routable(name) && DockerManifest.IsDigestRef(d)
    ensures var (w', out) := DockerManifest.Handle(w, repoId, m);
            BoundIn(w'.rows, repoId, name, d) <==>
            || (m.Put? && out == DockerManifest.Created && m.name == name && DigestOf(DockerManifest.Body(m.raw)) == d)
            || (BoundIn(w.rows, repoId, name, d) &&
                !(m.Delete? && out == DockerManifest.Accepted && m.name == name && m.reference == d))
  {
    var path := DockerManifest.ManifestPath(name, d);
    if DockerManifest.ManifestPath(m.name, m.reference) == path {
      DockerManifest.PathInjective(m.name, m.reference, name, d);
    }
    if m.Put? {
      var digest := DigestOf(DockerManifest.Body(m.raw));
      if DockerManifest.ManifestPath(m.name, digest) == path {
        DockerManifest.PathInjective(m.name, digest, name, d);
      }
    }
  }

  lemma FetchStep(s: State, repoId: string, r: Request, name: string, d: string)
    requires r.FetchManifest? && NamesOk(r) && DockerManifest.Routable(name) && DockerManifest.IsDigestRef(d)
    ensures BoundIn(Handle(s, repoId, r).world.rows, repoId, name, d) <==>
            Writes(s, repoId, r, name, d) || BoundIn(s.world.rows, repoId, name, d)
  {
    var path := DockerManifest.ManifestPath(name, d);
    if DockerManifest.ManifestPath(r.name, r.reference) == path {
      DockerManifest.PathInjective(r.name, r.reference, name, d);
    }
    if r.upstream.Some? {
      PutSucceedsIff(s.world.objects, r.upstream.value.body, r.env.nonce, r.env.faults);
      var digest := DockerProxy.ManifestDigest(r.upstream.value);
      if DockerManifest.ManifestPath(r.name, digest) == path {
        DockerManifest.PathInjective(r.name, digest, name, d);
      }
    }
  }

  lemma UploadStep(s: State, repoId: string, r: Request, name: string, d: string)
    requires !r.Manifest? && !r.FetchManifest? && NamesOk(r) && name != "" && DockerManifest.Routable(name)
    ensures BoundIn(Handle(s, repoId, r).world.rows, repoId, name, d) <==> BoundIn(s.world.rows, repoId, name, d)
  {
    if r.Upload? { UploadLeavesTags(s, repoId, r.u, name, d); } else { BlobRequestLeavesTags(s, repoId, r, name, d); }
  }

  lemma ManifestRequestStep(s: State, repoId: string, r: Request, name: string, d: string)
    requires r.Manifest? && NamesOk(r) && name != "" && DockerManifest.Routable(name) && DockerManifest.IsDigestRef(d)
    ensures BoundIn(Handle(s, repoId, r).world.rows, repoId, name, d) <==>
            || Writes(s, repoId, r, name, d)
            || (BoundIn(s.world.rows, repoId, name, d) && !Deletes(s, repoId, r, name, d))
  {
    ManifestStep(s.world, repoId, r.m, name, d);
  }

  /** One request of any kind binds or unbinds a digest reference as its answer says, and otherwise leaves it. */
  lemma DigestStep(s: State, repoId: string, r: Request, name: string, d: string)
    requires NamesOk(r) && name != "" && DockerManifest.Routable(name) && DockerManifest.IsDigestRef(d)
    ensures BoundIn(Handle(s, repoId, r).world.rows, repoId, name, d) <==>
            || Writes(s, repoId, r, name, d)
            || (BoundIn(s.world.rows, repoId, name, d) && !Deletes(s, repoId, r, name, d))
  {
    if r.Manifest? {
      ManifestRequestStep(s, repoId, r, name, d);
    } else if r.FetchManifest? {
      FetchStep(s, repoId, r, name, d);
    } else {
      UploadStep(s, repoId, r, name, d);
    }
  }

  /**
   Over every run of uploads, manifest requests, blob deletes and proxy fetches, a digest
   reference is bound exactly when some request wrote it, or it was bound at the start, and
   no DELETE of it was accepted after that.
   */
  lemma {:induction false} BoundIffWritten(s: State, repoId: string, rs: seq<Request>, name: string, d: string)
    requires AllNamesOk(rs) && name != "" && DockerManifest.Routable(name) && DockerManifest.IsDigestRef(d)
    ensures BoundIn(After(s, repoId, rs).world.rows, repoId, name, d) <==>
            || (BoundIn(s.world.rows, repoId, name, d) && NotDeletedSince(s, repoId, rs, name, d, 0))
            || exists i: nat :: LastsFrom(s, repoId, rs, name, d, i)
  {
    if rs != [] {
      var n := |rs| - 1;
      var front := rs[..n];
      assert forall i :: 0 <= i < n ==> front[i] == rs[i];
      BoundIffWritten(s, repoId, front, name, d);
      DigestStep(After(s, repoId, front), repoId, rs[n], name, d);
      StillNotDeleted(s, repoId, rs, name, d, 0);
      OneMoreRequest(s, repoId, rs, name, d);
    }
  }

  lemma {:induction false} StillNotDeleted(s: State, repoId: string, rs: seq<Request>, name: string, d: string, i: nat)
    requires rs != [] && i < |rs|
    ensures var n := |rs| - 1;
            NotDeletedSince(s, repoId, rs, name, d, i) <==>
            && NotDeletedSince(s, repoId, rs[..n], name, d, i)
            && !Deletes(After(s, repoId, rs[..n]), repoId, rs[n], name, d)
  {
    var n := |rs| - 1;
    var front := rs[..n];
    forall j | 0 <= j < n ensures front[j] == rs[j] && front[..j] == rs[..j] {
    }
    if NotDeletedSince(s, repoId, rs, name, d, i) {
      forall j | i <= j < n ensures !Deletes(After(s, repoId, front[..j]), repoId, front[j], name, d) {
        assert front[j] == rs[j] && front[..j] == rs[..j];
      }
    }
    if NotDeletedSince(s, repoId, front, name, d, i) && !Deletes(After(s, repoId, front), repoId, rs[n], name, d) {
      forall j | i <= j < |rs| ensures !Deletes(After(s, repoId, rs[..j]), repoId, rs[j], name, d) {
        if j < n { assert front[j] == rs[j] && front[..j] == rs[..j]; }
      }
    }
  }

  lemma {:induction false} StillLasts(s: State, repoId: string, rs: seq<Request>, name: string, d: string, i: nat)
    requires rs != [] && i < |rs| - 1
    ensures var n := |rs| - 1;
            LastsFrom(s, repoId, rs, name, d, i) <==>
            LastsFrom(s, repoId, rs[..n], name, d, i) && !Deletes(After(s, repoId, rs[..n]), repoId, rs[n], name, d)
  {
    StillNotDeleted(s, repoId, rs, name, d, i + 1);
    assert rs[..|rs| - 1][i] == rs[i] && rs[..|rs| - 1][..i] == rs[..i];
  }

  /** What one more request means for the question who wrote the row last. */
  lemma {:induction false} OneMoreRequest(s: State, repoId: string, rs: seq<Request>, name: string, d: string)
    requires rs != []
    ensures var n := |rs| - 1;
            (exists i: nat :: LastsFrom(s, repoId, rs, name, d, i)) <==>
            || Writes(After(s, repoId, rs[..n]), repoId, rs[n], name, d)
            || (!Deletes(After(s, repoId, rs[..n]), repoId, rs[n], name, d) &&
                exists i: nat :: LastsFrom(s, repoId, rs[..n], name, d, i))
  {
    var n := |rs| - 1;
    assert LastsFrom(s, repoId, rs, name, d, n) <==> Writes(After(s, repoId, rs[..n]), repoId, rs[n], name, d);
    forall i: nat | i < n
      ensures LastsFrom(s, repoId, rs, name, d, i) <==>
              LastsFrom(s, repoId, rs[..n], name, d, i) && !Deletes(After(s, repoId, rs[..n]), repoId, rs[n], name, d)
    {
      StillLasts(s, repoId, rs, name, d, i);
    }
  }

  /**
   So over every mixed run of a hosted repository: GET by digest serves the document with
   that hash exactly while it is bound, and nothing otherwise.
   */
  lemma GetByDigestIffWritten(repos: Repos, s: State, repoId: string, rs: seq<Request>, name: string, body: Bytes,
                              f: ReadFaults, u: iset<Bytes>)
    requires repoId in repos.byId && !repos.byId[repoId].kind.Group?
    requires Sound(s.world) && DigestRowsTrue(s.world.rows, repoId) && AllHosted(rs) && AllNamesOk(rs)
    requires name != "" && DockerManifest.Routable(name) && !BoundIn(s.world.rows, repoId, name, DigestOf(body))
    requires CollisionFree(u) && BlobsWithin(After(s, repoId, rs).world.objects, u) && body in u
    ensures DockerManifest.Serve(repos, After(s, repoId, rs).world, repoId, name, DigestOf(body), f) ==
            if !f.lookup.direct && !f.blob && exists i: nat :: LastsFrom(s, repoId, rs, name, DigestOf(body), i)
            then Some(body) else None
  {
    var t := After(s, repoId, rs).world;
    DockerManifest.DigestIsDigestRef(body);
    BoundIffWritten(s, repoId, rs, name, DigestOf(body));
    GetByDigestIsTrue(repos, s, repoId, rs, name, DigestOf(body), f);
    DockerManifest.ServeDirect(repos, t, repoId, name, DigestOf(body), f);
  }
}
