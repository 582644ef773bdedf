/**
 Docker manifests: a PUT stores the document and binds a tag and its digest to it, a
 DELETE unbinds one reference, a GET goes through the binding, and the tag list reads
 the bindings under the image's prefix.
 */
module DockerManifest {
  import opened Text
  import opened Sequences
  import opened Storage
  import opened Cas
  import opened Like
  import opened Artifacts
  import opened Wrappers
  import opened Registry
  import DockerUpload

  const SEPARATOR: string := "/manifests/"

  const CAP: nat := 0x40_0000

  const DEFAULT_MEDIA: string := "application/vnd.oci.image.manifest.v1+json"

  function ManifestPrefix(name: string): string {
    "refs/" + name + SEPARATOR
  }

  function ManifestPath(name: string, reference: string): string {
    ManifestPrefix(name) + reference
  }

  predicate IsDigestRef(reference: string) {
    HasPrefix(reference, ALGORITHM)
  }

  /** Names that URL parsing can produce: the separator after the name is the first one. */
  predicate Routable(name: string) {
    FirstAfter(name, SEPARATOR)
  }

  datatype Env = Env(readFails: bool, nonce: string, faults: PutFaults, tagOk: bool, digestOk: bool,
                     tagStamp: Stamp, digestStamp: Stamp)

  /** `json` tells whether the (capped) body is valid JSON. */
  datatype Request =
    | Put(name: string, reference: string, raw: Bytes, json: bool, mediaType: string, env: Env)
    | Delete(name: string, reference: string, ok: bool)

  datatype Outcome = Created | Accepted | BadRequest | Failed

  function Body(raw: Bytes): Bytes {
    if |raw| > CAP then raw[..CAP] else raw
  }

  /** Stores the document and writes the bindings for a request that passed the checks. */
  function Bind(w: World, repoId: string, r: Request): (World, Outcome)
    requires r.Put?
  {
    var body := Body(r.raw);
    var digest := DigestOf(body);
    var (w1, put) := PutBlob(w, body, r.env.nonce, r.env.faults);
    if put.Err? then (w1, Failed) else
    var tagged := !IsDigestRef(r.reference);
    var w2 := PutRow(w1, tagged && r.env.tagOk, r.env.tagStamp, repoId, ManifestPath(r.name, r.reference),
                     digest, |body|, MediaOr(r.mediaType, DEFAULT_MEDIA));
    if tagged && !r.env.tagOk then (w2, Failed) else
    (PutRow(w2, r.env.digestOk, r.env.digestStamp, repoId, ManifestPath(r.name, digest), digest, |body|,
            MediaOr(r.mediaType, DEFAULT_MEDIA)),
     if r.env.digestOk then Created else Failed)
  }

  function Handle(w: World, repoId: string, r: Request): (World, Outcome) {
    if !DockerUpload.ValidName(r.name) then (w, BadRequest)
    else match r
      case Put(_, _, _, json, _, env) =>
        if env.readFails || !json then (w, BadRequest) else Bind(w, repoId, r)
      case Delete(name, reference, ok) =>
        (DropRow(w, ok, repoId, ManifestPath(name, reference)), if ok then Accepted else Failed)
  }

  /** GET: through the binding to the blob. */
  function Serve(repos: Repos, w: World, repoId: string, name: string, reference: string, f: ReadFaults)
    : Option<Bytes>
  {
    var a := ResolveUnder(repos, w.rows, repoId, ManifestPath(name, reference), f.lookup);
    if a.Ok? && !f.blob && HasBlob(w.objects, a.value.digest)
    then Some(w.objects[KeyFor(a.value.digest)]) else None
  }

  function TagsIn(prefix: string, items: seq<Artifact>): seq<string>
  {
    if items == [] then []
    else
      var before := TagsIn(prefix, items[..|items| - 1]);
      var reference := TrimPrefix(items[|items| - 1].path, prefix);
      if IsDigestRef(reference) then before else before + [reference]
  }

  ghost function TagsList(d: Dialect, repos: Repos, rows: Rows, repoId: string, name: string): seq<string> {
    TagsIn(ManifestPrefix(name), ResolveList(d, repos, rows, repoId, ManifestPrefix(name)))
  }

  /** The answer to a request for the tags; none is an error. */
  ghost function AnswerTags(d: Dialect, repos: Repos, rows: Rows, repoId: string, name: string, f: Outage)
    : Option<seq<string>>
  {
    var listed := ListUnder(d, repos, rows, repoId, ManifestPrefix(name), f);
    if !DockerUpload.ValidName(name) || listed.Err? then None
    else Some(TagsIn(ManifestPrefix(name), listed.value))
  }

  /** In a repository that is no group the answer is the list, unless a query fails. */
  lemma AnswerIsTagsList(d: Dialect, repos: Repos, rows: Rows, repoId: string, name: string, f: Outage)
    requires repoId in repos.byId && !repos.byId[repoId].kind.Group?
    ensures var answer := AnswerTags(d, repos, rows, repoId, name, f);
            && (answer.Some? <==> DockerUpload.ValidName(name) && !f.direct && !f.parent)
            && (answer.Some? ==> answer.value == TagsList(d, repos, rows, repoId, name))
  {
  }

  class Handler {
    const repoId: string
    const cas: CAS
    const store: Store

    ghost predicate Valid()
      reads cas.b, store
    {
      cas.b.Valid() && store.Valid()
    }

    ghost function Contents(): World
      reads cas.b, store
    {
      World(cas.b.objects, store.rows)
    }

    constructor (repoId: string, cas: CAS, store: Store)
      requires cas.b.Valid() && store.Valid()
      ensures Valid() && this.repoId == repoId && this.cas == cas && this.store == store
    {
      this.repoId := repoId;
      this.cas := cas;
      this.store := store;
    }

    method UploadManifest(r: Request) returns (out: Outcome)
      requires Valid() && r.Put? && LowerHex(r.env.nonce, 32)
      requires r.env.tagOk || r.env.digestOk ==> repoId in store.repos.byId
      modifies cas.b, store`rows
      ensures Valid()
      ensures (Contents(), out) == Handle(old(Contents()), repoId, r)
    {
      if !DockerUpload.ValidName(r.name) { return BadRequest; }
      if r.env.readFails { return BadRequest; }
      var body := Body(r.raw);
      if !r.json { return BadRequest; }
      var digest := DigestOf(body);
      var put := cas.Put(body, r.env.nonce, r.env.faults);
      if put.Err? { return Failed; }
      var mediaType := MediaOr(r.mediaType, DEFAULT_MEDIA);
      if !HasPrefix(r.reference, "sha256:") {
        var ok := store.UpsertArtifact(r.env.tagStamp.id, r.env.tagStamp.now, repoId,
                                       ManifestPath(r.name, r.reference), digest, |body|, mediaType, "", !r.env.tagOk);
        if !ok { return Failed; }
      }
      var ok := store.UpsertArtifact(r.env.digestStamp.id, r.env.digestStamp.now, repoId,
                                     ManifestPath(r.name, digest), digest, |body|, mediaType, "", !r.env.digestOk);
      if !ok { return Failed; }
      out := Created;
    }

    method DeleteManifest(r: Request) returns (out: Outcome)
      requires Valid() && r.Delete?
      modifies store`rows
      ensures Valid()
      ensures (Contents(), out) == Handle(old(Contents()), repoId, r)
    {
      if !DockerUpload.ValidName(r.name) { return BadRequest; }
      var ok := store.DeleteArtifact(repoId, ManifestPath(r.name, r.reference), !r.ok);
      out := if ok then Accepted else Failed;
    }

    method ServeManifest(name: string, reference: string, f: ReadFaults) returns (r: Option<Bytes>)
      requires Valid()
      ensures r == Serve(store.repos, Contents(), repoId, name, reference, f)
    {
      var art := store.ResolveArtifact(repoId, ManifestPath(name, reference), f.lookup);
      if art.Err? { return None; }
      var blob := cas.Get(art.value.digest, f.blob);
      r := if blob.Ok? then Some(blob.value) else None;
    }

    method HandleTagsList(name: string, f: Outage) returns (answer: Option<seq<string>>)
      requires Valid()
      ensures answer == AnswerTags(store.dialect, store.repos, store.rows, repoId, name, f)
    {
      if !DockerUpload.ValidName(name) { return None; }
      var prefix := ManifestPrefix(name);
      var listed := store.ResolveArtifactsByPrefix(repoId, prefix, f);
      if listed.Err? { return None; }
      var arts := listed.value;
      var tags := [];
      for i := 0 to |arts|
        invariant tags == TagsIn(prefix, arts[..i])
      {
        assert arts[..i + 1][..i] == arts[..i];
        var reference := TrimPrefix(arts[i].path, prefix);
        if !HasPrefix(reference, "sha256:") { tags := tags + [reference]; }
      }
      assert arts[..|arts|] == arts;
      answer := Some(tags);
    }
  }

  // ---------------------------------------------------------------- paths

  /** For parsed names, a manifest path determines its name and reference. */
  lemma PathInjective(n: string, r: string, n': string, r': string)
    requires Routable(n) && Routable(n') && ManifestPath(n, r) == ManifestPath(n', r')
    ensures n == n' && r == r'
  {
    var p, p' := n + SEPARATOR, n' + SEPARATOR;
    PathTail(n, r);
    PathTail(n', r');
    if |n| < |n'| {
      SeparatorEarlier(n, r, n', r');
    } else if |n'| < |n| {
      SeparatorEarlier(n', r', n, r);
    } else {
      Joins(p, r);
      Joins(p', r');
      Joins(n, SEPARATOR);
      Joins(n', SEPARATOR);
    }
  }

  lemma PathTail(n: string, r: string)
    ensures ManifestPath(n, r)[5..] == (n + SEPARATOR) + r
  {
  }

  lemma SeparatorEarlier(n: string, r: string, n': string, r': string)
    requires |n| < |n'| && n + SEPARATOR + r == n' + SEPARATOR + r'
    ensures !Routable(n')
  {
    var p, p' := n + SEPARATOR, n' + SEPARATOR;
    assert OccursAt(p, SEPARATOR, |n|);
    OccursInPrefix(p, r, SEPARATOR, |n|);
    OccursInPrefix(p', r', SEPARATOR, |n|);
  }

  lemma DigestIsDigestRef(body: Bytes)
    ensures IsDigestRef(DigestOf(body))
  {
  }

  // ---------------------------------------------------------------- agreement of the two stores

  lemma BindSound(w: World, repoId: string, r: Request)
    requires Sound(w) && r.Put?
    ensures Sound(Bind(w, repoId, r).0)
  {
    var body := Body(r.raw);
    PutBlobSound(w, body, r.env.nonce, r.env.faults);
    var (w1, put) := PutBlob(w, body, r.env.nonce, r.env.faults);
    if put.Ok? {
      var tag := !IsDigestRef(r.reference) && r.env.tagOk;
      PutRowSoundIff(w1, tag, r.env.tagStamp, repoId, ManifestPath(r.name, r.reference), DigestOf(body), |body|,
                     MediaOr(r.mediaType, DEFAULT_MEDIA));
      var w2 := PutRow(w1, tag, r.env.tagStamp, repoId, ManifestPath(r.name, r.reference), DigestOf(body), |body|,
                       MediaOr(r.mediaType, DEFAULT_MEDIA));
      PutRowSoundIff(w2, r.env.digestOk, r.env.digestStamp, repoId, ManifestPath(r.name, DigestOf(body)),
                     DigestOf(body), |body|, MediaOr(r.mediaType, DEFAULT_MEDIA));
    }
  }

  /** Every manifest request keeps every row's blob in place. */
  lemma HandleSound(w: World, repoId: string, r: Request)
    requires Sound(w)
    ensures Sound(Handle(w, repoId, r).0)
  {
    if r.Put? { BindSound(w, repoId, r); }
  }

  // ---------------------------------------------------------------- single requests

  /** A PUT that got as far as writing the row of its own reference. */
  predicate BindsReference(w: World, r: Request) {
    && r.Put? && DockerUpload.ValidName(r.name) && !r.env.readFails && r.json
    && PutBlob(w, Body(r.raw), r.env.nonce, r.env.faults).1.Ok?
    && !IsDigestRef(r.reference) && r.env.tagOk
  }

  predicate Unbinds(r: Request) {
    r.Delete? && DockerUpload.ValidName(r.name) && r.ok
  }

  /** One request changes a tag's row only by binding or unbinding that very tag. */
  lemma TagRowStep(w: World, repoId: string, r: Request, name: string, tag: string)
    requires Routable(name) && Routable(r.name) && !IsDigestRef(tag)
    ensures var w' := Handle(w, repoId, r).0;
            var path := ManifestPath(name, tag);
            var own := r.name == name && r.reference == tag;
            && (own && BindsReference(w, r) ==>
                  LookUp(w'.rows, repoId, path).Some? &&
                  LookUp(w'.rows, repoId, path).value.digest == DigestOf(Body(r.raw)))
            && (own && Unbinds(r) ==> LookUp(w'.rows, repoId, path) == None)
            && (!(own && (BindsReference(w, r) || Unbinds(r))) ==>
                  LookUp(w'.rows, repoId, path) == LookUp(w.rows, repoId, path))
  {
    if ManifestPath(r.name, r.reference) == ManifestPath(name, tag) {
      PathInjective(r.name, r.reference, name, tag);
    }
    if r.Put? {
      var digest := DigestOf(Body(r.raw));
      DigestIsDigestRef(Body(r.raw));
      if ManifestPath(r.name, digest) == ManifestPath(name, tag) { PathInjective(r.name, digest, name, tag); }
    }
  }

  /** One request writes at a digest reference only that digest. */
  lemma DigestRowStep(w: World, repoId: string, r: Request, name: string, d: string)
    requires Routable(r.name) && Routable(name) && IsDigestRef(d)
    ensures var w' := Handle(w, repoId, r).0;
            var path := ManifestPath(name, d);
            (repoId, path) in w'.rows ==>
              w'.rows[(repoId, path)].digest == d || LookUp(w.rows, repoId, path) == Some(w'.rows[(repoId, path)])
  {
    if ManifestPath(r.name, r.reference) == ManifestPath(name, d) { PathInjective(r.name, r.reference, name, d); }
    if r.Put? {
      var digest := DigestOf(Body(r.raw));
      if ManifestPath(r.name, digest) == ManifestPath(name, d) { PathInjective(r.name, digest, name, d); }
    }
  }

  /** In a repository that is no group, a GET needs the query for its own row and the blob's read. */
  lemma ServeDirect(repos: Repos, w: World, repoId: string, name: string, reference: string, f: ReadFaults)
    requires repoId in repos.byId && !repos.byId[repoId].kind.Group?
    ensures var a := LookUp(w.rows, repoId, ManifestPath(name, reference));
            Serve(repos, w, repoId, name, reference, f) ==
            if !f.lookup.direct && !f.blob && a.Some? && HasBlob(w.objects, a.value.digest)
            then Some(w.objects[KeyFor(a.value.digest)]) else None
  {
    DirectHitWins(w.rows, repoId, Chain(repos, repoId, f.lookup.members), ManifestPath(name, reference));
  }

  /** Deleting one reference leaves every other one as it was; deleting a tag keeps its digest binding. */
  lemma DeleteUnbindsOnlyItself(repos: Repos, w: World, repoId: string, r: Request, name: string, reference: string,
                                f: ReadFaults)
    requires repoId in repos.byId && !repos.byId[repoId].kind.Group?
    requires r.Delete? && Routable(r.name) && Routable(name)
    requires (r.name, r.reference) != (name, reference)
    ensures Serve(repos, Handle(w, repoId, r).0, repoId, name, reference, f) ==
            Serve(repos, w, repoId, name, reference, f)
  {
    var w' := Handle(w, repoId, r).0;
    if ManifestPath(r.name, r.reference) == ManifestPath(name, reference) {
      PathInjective(r.name, r.reference, name, reference);
    }
    ServeDirect(repos, w, repoId, name, reference, f);
    ServeDirect(repos, w', repoId, name, reference, f);
  }

  // ---------------------------------------------------------------- what an accepted PUT leaves

  /**
   The answers: 400 is a matter of the name and the document; a PUT is answered 201 when
   everything it takes works, and the row of its own reference counts only if that is a tag;
   a DELETE is answered 202 whether or not there was a row.
   */
  lemma ManifestAnswers(w: World, repoId: string, r: Request)
    ensures var out := Handle(w, repoId, r).1;
            && (out == BadRequest <==> !DockerUpload.ValidName(r.name) || (r.Put? && (r.env.readFails || !r.json)))
            && (out == Created <==>
                  && r.Put? && DockerUpload.ValidName(r.name) && !r.env.readFails && r.json
                  && CanStore(w.objects, Body(r.raw), r.env.faults)
                  && (IsDigestRef(r.reference) || r.env.tagOk) && r.env.digestOk)
            && (out == Accepted <==> r.Delete? && DockerUpload.ValidName(r.name) && r.ok)
  {
    if r.Put? { PutSucceedsIff(w.objects, Body(r.raw), r.env.nonce, r.env.faults); }
  }

  /** The row at this path names the document, with its size and the media type it was sent with. */
  predicate Names(rows: Rows, repoId: string, path: string, body: Bytes, mediaType: string) {
    && (repoId, path) in rows
    && rows[(repoId, path)].digest == DigestOf(body) && rows[(repoId, path)].size == |body|
    && rows[(repoId, path)].mediaType == (if mediaType == "" then DEFAULT_MEDIA else mediaType)
  }

  lemma RowNames(w: World, stamp: Stamp, repoId: string, path: string, body: Bytes, mediaType: string)
    ensures var rows := PutRow(w, true, stamp, repoId, path, DigestOf(body), |body|,
                               MediaOr(mediaType, DEFAULT_MEDIA)).rows;
            && Names(rows, repoId, path, body, mediaType)
            && (forall q, b: Bytes, m :: Names(w.rows, repoId, q, b, m) && q != path ==> Names(rows, repoId, q, b, m))
            && (forall k :: k != (repoId, path) ==>
                  (k in rows <==> k in w.rows) && (k in rows ==> rows[k] == w.rows[k]))
  {
  }

  /**
   A PUT answered 201 has bound the digest of its document, and the reference it was put
   to if that is a tag; it has stored the document, and touched no other row.
   */
  lemma CreatedBinds(w: World, repoId: string, r: Request)
    requires Intact(w.objects) && r.Put?
    ensures var (w', out) := Handle(w, repoId, r);
            var body := Body(r.raw);
            out == Created ==>
              && HasBlob(w'.objects, DigestOf(body))
              && Names(w'.rows, repoId, ManifestPath(r.name, DigestOf(body)), body, r.mediaType)
              && (!IsDigestRef(r.reference) ==>
                    Names(w'.rows, repoId, ManifestPath(r.name, r.reference), body, r.mediaType))
              && (forall k :: k != (repoId, ManifestPath(r.name, DigestOf(body)))
                              && k != (repoId, ManifestPath(r.name, r.reference)) ==>
                    (k in w'.rows <==> k in w.rows) && (k in w'.rows ==> w'.rows[k] == w.rows[k]))
              && (IsDigestRef(r.reference) && r.reference != DigestOf(body) ==>
                    LookUp(w'.rows, repoId, ManifestPath(r.name, r.reference)) ==
                    LookUp(w.rows, repoId, ManifestPath(r.name, r.reference)))
  {
    var body := Body(r.raw);
    ManifestAnswers(w, repoId, r);
    PutKeepsBlobs(w.objects, body, r.env.nonce, r.env.faults);
    if Handle(w, repoId, r).1 == Created {
      PutSucceedsIff(w.objects, body, r.env.nonce, r.env.faults);
      var w1 := PutBlob(w, body, r.env.nonce, r.env.faults).0;
      var w2 := w1;
      if !IsDigestRef(r.reference) {
        RowNames(w1, r.env.tagStamp, repoId, ManifestPath(r.name, r.reference), body, r.mediaType);
        w2 := PutRow(w1, true, r.env.tagStamp, repoId, ManifestPath(r.name, r.reference), DigestOf(body), |body|,
                     MediaOr(r.mediaType, DEFAULT_MEDIA));
      }
      RowNames(w2, r.env.digestStamp, repoId, ManifestPath(r.name, DigestOf(body)), body, r.mediaType);
      PathsDifferWithReference(r.name, r.reference, DigestOf(body));
    }
  }

  lemma PathsDifferWithReference(name: string, a: string, b: string)
    ensures ManifestPath(name, a) == ManifestPath(name, b) <==> a == b
  {
    Joins(ManifestPrefix(name), a);
    Joins(ManifestPrefix(name), b);
  }

  /**
   After a PUT answered 201, GET by the digest of the document serves it whole up to 4 MiB,
   and cut off there if it was longer. GET by the reference it was put to serves it, too, if
   and only if that is a tag or the document's own digest: a PUT to another digest is
   answered 201 as well, and is not found there.
   */
  lemma CreatedIsServed(repos: Repos, w: World, repoId: string, r: Request, body: Bytes, f: ReadFaults, u: iset<Bytes>)
    requires repoId in repos.byId && !repos.byId[repoId].kind.Group?
    requires Intact(w.objects) && r.Put? && Handle(w, repoId, r).1 == Created
    requires body == if |r.raw| <= 4 * 1024 * 1024 then r.raw else r.raw[..4 * 1024 * 1024]
    requires CollisionFree(u) && BlobsWithin(w.objects, u) && body in u
    requires var was := LookUp(w.rows, repoId, ManifestPath(r.name, r.reference));
             IsDigestRef(r.reference) && was.Some? ==> was.value.digest == r.reference
    ensures var w' := Handle(w, repoId, r).0;
            var works := !f.lookup.direct && !f.blob;
            && Serve(repos, w', repoId, r.name, DigestOf(body), f) == (if works then Some(body) else None)
            && (Serve(repos, w', repoId, r.name, r.reference, f) == Some(body) <==>
                  works && (!IsDigestRef(r.reference) || r.reference == DigestOf(body)))
  {
    var w' := Handle(w, repoId, r).0;
    CreatedBinds(w, repoId, r);
    CreatedObjects(w, repoId, r);
    PutStoresTheBytes(w.objects, body, r.env.nonce, r.env.faults, u);
    PutKeepsBlobs(w.objects, body, r.env.nonce, r.env.faults);
    ServeDirect(repos, w', repoId, r.name, DigestOf(body), f);
    ServeDirect(repos, w', repoId, r.name, r.reference, f);
  }

  lemma CreatedObjects(w: World, repoId: string, r: Request)
    requires r.Put? && Handle(w, repoId, r).1 == Created
    ensures var (objects, put) := PutSteps(w.objects, Body(r.raw), r.env.nonce, r.env.faults);
            put.Ok? && Handle(w, repoId, r).0.objects == objects
  {
  }

  /** So in an empty registry: the document `{}` put to the reference "sha256:" is accepted and not found there. */
  lemma ForeignDigestIsLost(repos: Repos, repoId: string)
    requires repoId in repos.byId && !repos.byId[repoId].kind.Group?
    ensures var stamp := Stamp("", 0);
            var env := Env(false, "", NO_FAULTS, true, true, stamp, stamp);
            var put := Put("app", "sha256:", [0x7b, 0x7d], true, "", env);
            var (w, out) := Handle(World(map[], map[]), repoId, put);
            && out == Created
            && forall f: ReadFaults :: Serve(repos, w, repoId, "app", "sha256:", f) == None
  {
    var stamp := Stamp("", 0);
    var put := Put("app", "sha256:", [0x7b, 0x7d], true, "", Env(false, "", NO_FAULTS, true, true, stamp, stamp));
    var w0 := World(map[], map[]);
    ManifestAnswers(w0, repoId, put);
    CreatedBinds(w0, repoId, put);
    assert |DigestOf(Body(put.raw))| == 71;
    forall f: ReadFaults ensures Serve(repos, Handle(w0, repoId, put).0, repoId, "app", "sha256:", f) == None {
      ServeDirect(repos, Handle(w0, repoId, put).0, repoId, "app", "sha256:", f);
    }
  }
}
