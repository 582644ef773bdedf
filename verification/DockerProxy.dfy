/**
 Proxy mode: a miss is fetched from the upstream registry and written through to the
 blob store and the artifact table. Row errors are ignored by this code.
 */
module DockerProxy {
  import opened Text
  import opened Storage
  import opened Cas
  import opened Artifacts
  import opened Wrappers
  import opened Registry
  import opened DockerManifest
  import DockerUpload

  /** The upstream's answer; `digest` and `mediaType` are headers, empty when absent. */
  datatype Response = Response(body: Bytes, digest: string, mediaType: string)

  datatype Env = Env(nonce: string, faults: PutFaults, deleteFails: bool, tagOk: bool, rowOk: bool,
                     tagStamp: Stamp, stamp: Stamp)

  function FetchBlob(w: World, repoId: string, name: string, digest: string,
                     upstream: Option<Response>, env: Env): (World, Option<nat>)
  {
    if upstream.None? then (w, None) else
    var body := upstream.value.body;
    var (w1, put) := PutBlob(w, body, env.nonce, env.faults);
    if put.Err? then (w1, None)
    else if put.value.digest != digest then
      (if env.deleteFails then w1 else w1.(objects := w1.objects - {KeyFor(put.value.digest)}), None)
    else
      (PutRow(w1, env.rowOk, env.stamp, repoId, DockerUpload.RefPath(name, digest), digest, put.value.size,
              MediaOr(upstream.value.mediaType, OCTETS)),
       Some(put.value.size))
  }

  /** The digest the manifest is recorded under: the upstream's header if there is one. */
  function ManifestDigest(r: Response): string {
    if r.digest == "" then DigestOf(r.body) else r.digest
  }

  function FetchManifest(w: World, repoId: string, name: string, reference: string,
                         upstream: Option<Response>, env: Env): (World, Option<string>)
  {
    if upstream.None? then (w, None) else
    var r := upstream.value;
    var (w1, put) := PutBlob(w, r.body, env.nonce, env.faults);
    if put.Err? then (w1, None) else
    var digest, media := ManifestDigest(r), MediaOr(r.mediaType, DEFAULT_MEDIA);
    var w2 := PutRow(w1, !IsDigestRef(reference) && env.tagOk, env.tagStamp, repoId, ManifestPath(name, reference),
                     digest, |r.body|, media);
    (PutRow(w2, env.rowOk, env.stamp, repoId, ManifestPath(name, digest), digest, |r.body|, media), Some(digest))
  }

  class Handler {
    const repoId: string
    const cas: CAS
    const store: Store

    ghost predicate Valid()
      reads cas.b, store
    {
      cas.b.Valid() && store.Valid()
    }

    ghost function Contents(): World
      reads cas.b, store
    {
      World(cas.b.objects, store.rows)
    }

    constructor (repoId: string, cas: CAS, store: Store)
      requires cas.b.Valid() && store.Valid()
      ensures Valid() && this.repoId == repoId && this.cas == cas && this.store == store
    {
      this.repoId := repoId;
      this.cas := cas;
      this.store := store;
    }

    method ProxyFetchBlob(name: string, digest: string, upstream: Option<Response>, env: Env)
      returns (size: Option<nat>)
      requires Valid() && LowerHex(env.nonce, 32)
      requires env.rowOk ==> repoId in store.repos.byId
      modifies cas.b, store`rows
      ensures Valid()
      ensures (Contents(), size) == FetchBlob(old(Contents()), repoId, name, digest, upstream, env)
    {
      if upstream.None? { return None; }
      var stored := cas.Put(upstream.value.body, env.nonce, env.faults);
      if stored.Err? { return None; }
      if stored.value.digest != digest {
        DigestIsValid(upstream.value.body);
        var _ := cas.Delete(stored.value.digest, env.deleteFails);
        return None;
      }
      var mediaType := upstream.value.mediaType;
      if mediaType == "" { mediaType := OCTETS; }
      var _ := store.UpsertArtifact(env.stamp.id, env.stamp.now, repoId, DockerUpload.RefPath(name, digest), digest,
                                    stored.value.size, mediaType, "", !env.rowOk);
      size := Some(stored.value.size);
    }

    method ProxyFetchManifest(name: string, reference: string, upstream: Option<Response>, env: Env)
      returns (digest: Option<string>)
      requires Valid() && LowerHex(env.nonce, 32)
      requires env.rowOk || env.tagOk ==> repoId in store.repos.byId
      modifies cas.b, store`rows
      ensures Valid()
      ensures (Contents(), digest) == FetchManifest(old(Contents()), repoId, name, reference, upstream, env)
    {
      if upstream.None? { return None; }
      var body, d, mediaType := upstream.value.body, upstream.value.digest, upstream.value.mediaType;
      if mediaType == "" { mediaType := DEFAULT_MEDIA; }
      var stored := cas.Put(body, env.nonce, env.faults);
      if stored.Err? { return None; }
      if d == "" { d := stored.value.digest; }
      if !HasPrefix(reference, "sha256:") {
        var _ := store.UpsertArtifact(env.tagStamp.id, env.tagStamp.now, repoId, ManifestPath(name, reference), d,
                                      |body|, mediaType, "", !env.tagOk);
      }
      var _ := store.UpsertArtifact(env.stamp.id, env.stamp.now, repoId, ManifestPath(name, d), d, |body|,
                                    mediaType, "", !env.rowOk);
      digest := Some(d);
    }

    /** The local binding, or on a miss what is found after a fetch. */
    method FindManifest(name: string, reference: string, upstream: Option<Response>, env: Env, f: ReadFaults)
      returns (art: Option<Artifact>)
      requires Valid() && LowerHex(env.nonce, 32)
      requires env.rowOk || env.tagOk ==> repoId in store.repos.byId
      modifies cas.b, store`rows
      ensures Valid()
      ensures (Contents(), art) == Find(store.repos, old(Contents()), repoId, name, reference, upstream, env, f)
    {
      var local := store.ResolveArtifact(repoId, ManifestPath(name, reference), f.lookup);
      if local.Ok? { return Some(local.value); }
      if local.error != NotFound { return None; }
      var fetched := ProxyFetchManifest(name, reference, upstream, env);
      if fetched.None? { return None; }
      var found := store.GetArtifact(repoId, ManifestPath(name, reference), f.again);
      art := if found.Ok? then Some(found.value) else None;
    }

    /** GET of a manifest on a proxy repository: fetch on a miss, then look up again. */
    method ServeManifest(name: string, reference: string, upstream: Option<Response>, env: Env, f: ReadFaults)
      returns (r: Option<Bytes>)
      requires Valid() && LowerHex(env.nonce, 32)
      requires env.rowOk || env.tagOk ==> repoId in store.repos.byId
      modifies cas.b, store`rows
      ensures Valid()
      ensures (Contents(), r) == ServeThrough(store.repos, old(Contents()), repoId, name, reference, upstream, env, f)
    {
      var art := FindManifest(name, reference, upstream, env, f);
      if art.None? { return None; }
      var blob := cas.Get(art.value.digest, f.blob);
      r := if blob.Ok? then Some(blob.value) else None;
    }
  }

  function Find(repos: Repos, w: World, repoId: string, name: string, reference: string,
                upstream: Option<Response>, env: Env, f: ReadFaults): (World, Option<Artifact>)
  {
    var path := ManifestPath(name, reference);
    var local := ResolveUnder(repos, w.rows, repoId, path, f.lookup);
    if local.Ok? then (w, Some(local.value))
    else if local.error != NotFound then (w, None) else
    var (w1, fetched) := FetchManifest(w, repoId, name, reference, upstream, env);
    (w1, if fetched.Some? && !f.again then LookUp(w1.rows, repoId, path) else None)
  }

  function ServeThrough(repos: Repos, w: World, repoId: string, name: string, reference: string,
                        upstream: Option<Response>, env: Env, f: ReadFaults): (World, Option<Bytes>)
  {
    var (w1, a) := Find(repos, w, repoId, name, reference, upstream, env, f);
    (w1, if a.Some? && !f.blob && HasBlob(w1.objects, a.value.digest)
         then Some(w1.objects[KeyFor(a.value.digest)]) else None)
  }

  /** Some row names this digest. */
  ghost predicate Referenced(rows: Rows, d: string) {
    exists k :: k in rows && rows[k].digest == d
  }

  /** What the upstream sent for a blob did not have the digest that was asked for, and was thrown away again. */
  predicate Discards(w: World, digest: string, upstream: Option<Response>, env: Env) {
    && upstream.Some?
    && PutBlob(w, upstream.value.body, env.nonce, env.faults).1.Ok?
    && DigestOf(upstream.value.body) != digest
    && !env.deleteFails
  }

  /**
   Fetching a blob keeps every row's blob in place if and only if it does not discard
   content that some row already refers to.
   */
  lemma FetchBlobSoundIff(w: World, repoId: string, name: string, digest: string, upstream: Option<Response>, env: Env)
    requires Sound(w)
    ensures Sound(FetchBlob(w, repoId, name, digest, upstream, env).0) <==>
            !(Discards(w, digest, upstream, env) && Referenced(w.rows, DigestOf(upstream.value.body)))
  {
    if upstream.Some? {
      var body := upstream.value.body;
      var stored := DigestOf(body);
      DigestIsValid(body);
      PutBlobSound(w, body, env.nonce, env.faults);
      var w1 := PutBlob(w, body, env.nonce, env.faults).0;
      if Discards(w, digest, upstream, env) {
        DiscardSoundIff(w1, stored);
      } else {
        PutRowSoundIff(w1, env.rowOk, env.stamp, repoId, DockerUpload.RefPath(name, digest), digest, |body|,
                       MediaOr(upstream.value.mediaType, OCTETS));
      }
    }
  }

  lemma DiscardSoundIff(w: World, d: string)
    requires Sound(w) && ValidDigest(d)
    ensures Sound(w.(objects := w.objects - {KeyFor(d)})) <==> !Referenced(w.rows, d)
  {
    BlobDropped(w.objects, d);
    assert RowsHaveBlobs(w.(objects := w.objects - {KeyFor(d)})) <==> !Referenced(w.rows, d);
  }

  /**
   A blob fetch that succeeds has cached content with the digest that was asked for, under
   a row if one could be written.
   */
  lemma FetchedBlobIsTrue(w: World, repoId: string, name: string, digest: string, upstream: Option<Response>, env: Env)
    requires Sound(w)
    ensures var (w', size) := FetchBlob(w, repoId, name, digest, upstream, env);
            size.Some? ==>
              && HasBlob(w'.objects, digest) && DigestOf(w'.objects[KeyFor(digest)]) == digest
              && digest == DigestOf(upstream.value.body) && size.value == |upstream.value.body|
              && (env.rowOk ==>
                    DockerUpload.Recorded(w'.rows, repoId, DockerUpload.RefPath(name, digest), digest, size.value))
  {
    if upstream.Some? {
      PutBlobSound(w, upstream.value.body, env.nonce, env.faults);
    }
  }

  /** The fetch recorded the manifest in at least one row. */
  predicate Records(w: World, reference: string, upstream: Option<Response>, env: Env) {
    && upstream.Some?
    && PutBlob(w, upstream.value.body, env.nonce, env.faults).1.Ok?
    && ((!IsDigestRef(reference) && env.tagOk) || env.rowOk)
  }

  /**
   Fetching a manifest keeps every row's blob in place if and only if the upstream's
   digest header, when it is used, is absent, true, or names a blob already stored.
   */
  lemma FetchManifestSoundIff(w: World, repoId: string, name: string, reference: string,
                              upstream: Option<Response>, env: Env)
    requires Sound(w)
    ensures Sound(FetchManifest(w, repoId, name, reference, upstream, env).0) <==>
            (Records(w, reference, upstream, env) ==>
               || upstream.value.digest == ""
               || upstream.value.digest == DigestOf(upstream.value.body)
               || HasBlob(w.objects, upstream.value.digest))
  {
    if upstream.Some? && PutBlob(w, upstream.value.body, env.nonce, env.faults).1.Ok? {
      var r := upstream.value;
      var digest, media := ManifestDigest(r), MediaOr(r.mediaType, DEFAULT_MEDIA);
      PutBlobSound(w, r.body, env.nonce, env.faults);
      BlobsAfterPut(w, r, env);
      var w1 := PutBlob(w, r.body, env.nonce, env.faults).0;
      var tagged := !IsDigestRef(reference) && env.tagOk;
      PutRowSoundIff(w1, tagged, env.tagStamp, repoId, ManifestPath(name, reference), digest, |r.body|, media);
      var w2 := PutRow(w1, tagged, env.tagStamp, repoId, ManifestPath(name, reference), digest, |r.body|, media);
      SecondRow(w2, env.rowOk, env.stamp, repoId, ManifestPath(name, digest), digest, |r.body|, media);
    } else if upstream.Some? {
      PutBlobSound(w, upstream.value.body, env.nonce, env.faults);
    }
  }

  lemma BlobsAfterPut(w: World, r: Response, env: Env)
    requires Sound(w) && PutBlob(w, r.body, env.nonce, env.faults).1.Ok?
    ensures HasBlob(PutBlob(w, r.body, env.nonce, env.faults).0.objects, ManifestDigest(r)) <==>
            r.digest == "" || r.digest == DigestOf(r.body) || HasBlob(w.objects, r.digest)
  {
    PutBlobSound(w, r.body, env.nonce, env.faults);
    PutKeepsBlobs(w.objects, r.body, env.nonce, env.faults);
  }

  /** Writing another row with the same digest neither repairs nor breaks what the first row did. */
  lemma SecondRow(w: World, ok: bool, stamp: Stamp, repoId: string, path: string, digest: string, size: nat,
                  media: string)
    requires Intact(w.objects) && ValidRows(w.rows)
    requires RowsHaveBlobs(w) || exists k :: k in w.rows && w.rows[k].digest == digest && !HasBlob(w.objects, digest)
    ensures Sound(PutRow(w, ok, stamp, repoId, path, digest, size, media)) <==>
            Sound(w) && (!ok || HasBlob(w.objects, digest))
  {
    if RowsHaveBlobs(w) {
      PutRowSoundIff(w, ok, stamp, repoId, path, digest, size, media);
    } else if ok {
      UpsertLooksUp(w.rows, stamp, repoId, path, digest, size, media);
      var w' := PutRow(w, ok, stamp, repoId, path, digest, size, media);
      var k :| k in w.rows && w.rows[k].digest == digest && !HasBlob(w.objects, digest);
      assert k in w'.rows && w'.rows[k].digest == digest;
    }
  }

  // ---------------------------------------------------------------- what a fetch is for

  /** When a fetch succeeds; rows do not count. */
  lemma FetchSucceedsIff(w: World, repoId: string, name: string, reference: string,
                         upstream: Option<Response>, env: Env)
    ensures FetchBlob(w, repoId, name, reference, upstream, env).1.Some? <==>
            && upstream.Some? && CanStore(w.objects, upstream.value.body, env.faults)
            && DigestOf(upstream.value.body) == reference
    ensures FetchManifest(w, repoId, name, reference, upstream, env).1.Some? <==>
            upstream.Some? && CanStore(w.objects, upstream.value.body, env.faults)
  {
    if upstream.Some? { PutSucceedsIff(w.objects, upstream.value.body, env.nonce, env.faults); }
  }

  /** Without a clean miss nothing is fetched, and the answer is the local one. */
  lemma FetchOnlyOnMiss(repos: Repos, w: World, repoId: string, name: string, reference: string,
                        upstream: Option<Response>, env: Env, f: ReadFaults)
    requires repoId in repos.byId && !repos.byId[repoId].kind.Group?
    requires f.lookup.direct || f.lookup.parent || (repoId, ManifestPath(name, reference)) in w.rows
    ensures ServeThrough(repos, w, repoId, name, reference, upstream, env, f) ==
            (w, Serve(repos, w, repoId, name, reference, f))
  {
    DirectHitWins(w.rows, repoId, Chain(repos, repoId, f.lookup.members), ManifestPath(name, reference));
  }

  /** The row that a GET looks for after its fetch. */
  lemma FetchedRow(w: World, repoId: string, name: string, reference: string, upstream: Option<Response>, env: Env)
    requires (repoId, ManifestPath(name, reference)) !in w.rows
    requires FetchManifest(w, repoId, name, reference, upstream, env).1.Some?
    ensures var found := LookUp(FetchManifest(w, repoId, name, reference, upstream, env).0.rows, repoId,
                                ManifestPath(name, reference));
            var digest := ManifestDigest(upstream.value);
            && (found.Some? <==> (!IsDigestRef(reference) && env.tagOk) || (reference == digest && env.rowOk))
            && (found.Some? ==> found.value.digest == digest)
  {
    PathsDifferWithReference(name, reference, ManifestDigest(upstream.value));
  }

  lemma FetchedObjects(w: World, repoId: string, name: string, reference: string, upstream: Option<Response>, env: Env)
    requires FetchManifest(w, repoId, name, reference, upstream, env).1.Some?
    ensures var (objects, put) := PutSteps(w.objects, upstream.value.body, env.nonce, env.faults);
            put.Ok? && FetchManifest(w, repoId, name, reference, upstream, env).0.objects == objects
  {
  }

  /**
   When a GET that found nothing locally serves what the upstream sent: exactly when it could
   be stored, the upstream's digest header was absent or true, the row of the reference asked
   for was written (a digest has one only if it is the document's own), and the second lookup
   and the read worked.
   */
  lemma MissServesUpstreamIff(repos: Repos, w: World, repoId: string, name: string, reference: string,
                              upstream: Option<Response>, env: Env, f: ReadFaults, u: iset<Bytes>)
    requires repoId in repos.byId && !repos.byId[repoId].kind.Group? && upstream.Some?
    requires !f.lookup.direct && !f.lookup.parent && (repoId, ManifestPath(name, reference)) !in w.rows
    requires Intact(w.objects) && CollisionFree(u) && BlobsWithin(w.objects, u) && upstream.value.body in u
    ensures var body, header := upstream.value.body, upstream.value.digest;
            ServeThrough(repos, w, repoId, name, reference, upstream, env, f).1 == Some(body) <==>
            && CanStore(w.objects, body, env.faults)
            && (header == "" || header == DigestOf(body))
            && (if IsDigestRef(reference) then reference == DigestOf(body) && env.rowOk else env.tagOk)
            && !f.again && !f.blob
  {
    var body := upstream.value.body;
    DirectHitWins(w.rows, repoId, Chain(repos, repoId, f.lookup.members), ManifestPath(name, reference));
    FetchSucceedsIff(w, repoId, name, reference, upstream, env);
    DigestIsDigestRef(body);
    if CanStore(w.objects, body, env.faults) {
      FetchedRow(w, repoId, name, reference, upstream, env);
      FetchedObjects(w, repoId, name, reference, upstream, env);
      PutStoresTheBytes(w.objects, body, env.nonce, env.faults, u);
      PutKeepsBlobs(w.objects, body, env.nonce, env.faults);
    }
  }
}
