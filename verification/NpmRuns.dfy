/** What holds of npm publishing over whole runs of publishes. */
module NpmRuns {
  import opened Storage
  import opened Cas
  import opened Artifacts
  import opened Wrappers
  import opened Registry
  import opened Npm

  // ---------------------------------------------------------------- one publish

  lemma StoreOneSound(w: World, repoId: string, path: string, bytes: Bytes, mediaType: string, env: PutEnv)
    requires Sound(w)
    ensures Sound(StoreOne(w, repoId, path, bytes, mediaType, env).0)
  {
    PutBlobSound(w, bytes, env.nonce, env.faults);
    var w1 := PutBlob(w, bytes, env.nonce, env.faults).0;
    PutRowSoundIff(w1, env.rowOk, env.stamp, repoId, path, DigestOf(bytes), |bytes|, mediaType);
  }

  lemma {:induction false} StoreTarballsSound(w: World, repoId: string, pkg: string, atts: seq<Attachment>)
    requires Sound(w)
    ensures Sound(StoreTarballs(w, repoId, pkg, atts).0)
  {
    if atts != [] {
      var a := atts[|atts| - 1];
      StoreTarballsSound(w, repoId, pkg, atts[..|atts| - 1]);
      if a.data.Some? {
        StoreOneSound(StoreTarballs(w, repoId, pkg, atts[..|atts| - 1]).0, repoId, TarballPath(pkg, a.filename),
                      a.data.value, OCTETS, a.env);
      }
    }
  }

  /** A publish keeps every row's blob in place, whatever fails on the way. */
  lemma PublishSound(c: Codec, w: World, repoId: string, r: Request)
    requires Sound(w)
    ensures Sound(Publish(c, w, repoId, r).0)
  {
    StoreTarballsSound(w, repoId, r.pkg, r.attachments);
    if r.body.Some? {
      var merged := Merge(Base(c, w, repoId, r), r.body.value);
      if merged.Some? {
        StoreOneSound(StoreTarballs(w, repoId, r.pkg, r.attachments).0, repoId, PackumentPath(r.pkg),
                      c.marshal(merged.value), JSON, r.env);
      }
    }
  }

  /** The bytes a publish stores are among byte strings without collisions, and its result survives JSON. */
  ghost predicate Clean(c: Codec, w: World, repoId: string, r: Request, u: iset<Bytes>) {
    && CollisionFree(u)
    && (forall i :: 0 <= i < |r.attachments| && r.attachments[i].data.Some? ==> r.attachments[i].data.value in u)
    && (r.body.Some? ==>
          var merged := Merge(Base(c, w, repoId, r), r.body.value);
          merged.Some? ==> c.marshal(merged.value) in u && RoundTrips(c, r.pkg, merged.value))
  }

  /** No blob is lost or altered. */
  ghost predicate BlobsKept(w: World, w': World) {
    forall d :: HasBlob(w.objects, d) ==> HasBlob(w'.objects, d) && w'.objects[KeyFor(d)] == w.objects[KeyFor(d)]
  }

  /** What `GET` of a package would find, blob and row. */
  ghost predicate SameDocument(w: World, w': World, repoId: string, pkg: string) {
    LookUp(w'.rows, repoId, PackumentPath(pkg)) == LookUp(w.rows, repoId, PackumentPath(pkg)) && BlobsKept(w, w')
  }

  lemma SameDocumentLoads(c: Codec, w: World, w': World, repoId: string, pkg: string)
    requires Sound(w) && SameDocument(w, w', repoId, pkg)
    ensures Load(c, w', repoId, pkg) == Load(c, w, repoId, pkg)
  {
    if (repoId, PackumentPath(pkg)) in w.rows {
      assert HasBlob(w.objects, w.rows[(repoId, PackumentPath(pkg))].digest);
    }
  }

  /** What storing one blob with its row changes in the table. */
  lemma StoreOneRow(w: World, repoId: string, path: string, bytes: Bytes, mediaType: string, env: PutEnv)
    ensures var (w', ok) := StoreOne(w, repoId, path, bytes, mediaType, env);
            && (ok ==> RowIs(w'.rows, repoId, path, bytes, mediaType))
            && (!ok ==> w'.rows == w.rows)
            && (forall r, p :: (r, p) != (repoId, path) ==> LookUp(w'.rows, r, p) == LookUp(w.rows, r, p))
  {
  }

  lemma StoreOneStores(w: World, repoId: string, path: string, bytes: Bytes, mediaType: string, env: PutEnv,
                       u: iset<Bytes>)
    requires Intact(w.objects) && CollisionFree(u) && BlobsWithin(w.objects, u) && bytes in u
    ensures var (w', ok) := StoreOne(w, repoId, path, bytes, mediaType, env);
            && Intact(w'.objects) && BlobsWithin(w'.objects, u) && BlobsKept(w, w')
            && (ok ==> HasBlob(w'.objects, DigestOf(bytes)) && w'.objects[KeyFor(DigestOf(bytes))] == bytes)
  {
    PutKeepsBlobs(w.objects, bytes, env.nonce, env.faults);
    PutStoresTheBytes(w.objects, bytes, env.nonce, env.faults, u);
  }

  lemma PathsDiffer(pkg: string, pkg': string, filename: string)
    ensures PackumentPath(pkg) != TarballPath(pkg', filename)
    ensures PackumentPath(pkg) == PackumentPath(pkg') ==> pkg == pkg'
  {
    assert PackumentPath(pkg)[0] == 'p' && TarballPath(pkg', filename)[0] == 't';
    assert PackumentPath(pkg)[|"packuments/"|..] == pkg;
    assert PackumentPath(pkg')[|"packuments/"|..] == pkg';
  }

  lemma {:induction false} TarballsLeaveDocument(w: World, repoId: string, pkg: string, atts: seq<Attachment>,
                                                 u: iset<Bytes>, other: string)
    requires Intact(w.objects) && CollisionFree(u) && BlobsWithin(w.objects, u)
    requires forall i :: 0 <= i < |atts| && atts[i].data.Some? ==> atts[i].data.value in u
    ensures var w' := StoreTarballs(w, repoId, pkg, atts).0;
            Intact(w'.objects) && BlobsWithin(w'.objects, u) && SameDocument(w, w', repoId, other)
  {
    if atts != [] {
      var front, a := atts[..|atts| - 1], atts[|atts| - 1];
      assert forall i :: 0 <= i < |front| ==> front[i] == atts[i];
      TarballsLeaveDocument(w, repoId, pkg, front, u, other);
      if a.data.Some? {
        var w1 := StoreTarballs(w, repoId, pkg, front).0;
        StoreOneStores(w1, repoId, TarballPath(pkg, a.filename), a.data.value, OCTETS, a.env, u);
        StoreOneRow(w1, repoId, TarballPath(pkg, a.filename), a.data.value, OCTETS, a.env);
        PathsDiffer(other, pkg, a.filename);
      }
    }
  }

  lemma TarballsKeepLoads(c: Codec, w: World, repoId: string, pkg: string, atts: seq<Attachment>, u: iset<Bytes>,
                          other: string)
    requires Sound(w) && CollisionFree(u) && BlobsWithin(w.objects, u)
    requires forall i :: 0 <= i < |atts| && atts[i].data.Some? ==> atts[i].data.value in u
    ensures var w' := StoreTarballs(w, repoId, pkg, atts).0;
            Sound(w') && BlobsWithin(w'.objects, u) && Load(c, w', repoId, other) == Load(c, w, repoId, other)
  {
    StoreTarballsSound(w, repoId, pkg, atts);
    TarballsLeaveDocument(w, repoId, pkg, atts, u, other);
    SameDocumentLoads(c, w, StoreTarballs(w, repoId, pkg, atts).0, repoId, other);
  }

  /** A document that was stored with its row is what the next publish loads. */
  lemma StoredDocumentLoads(c: Codec, w: World, repoId: string, pkg: string, doc: Packument, env: PutEnv,
                            u: iset<Bytes>)
    requires Intact(w.objects) && CollisionFree(u) && BlobsWithin(w.objects, u)
    requires c.marshal(doc) in u && RoundTrips(c, pkg, doc)
    ensures var (w', ok) := StoreOne(w, repoId, PackumentPath(pkg), c.marshal(doc), JSON, env);
            && Intact(w'.objects) && BlobsWithin(w'.objects, u) && BlobsKept(w, w')
            && (ok ==> Load(c, w', repoId, pkg) == doc)
  {
    StoreOneStores(w, repoId, PackumentPath(pkg), c.marshal(doc), JSON, env, u);
    StoreOneRow(w, repoId, PackumentPath(pkg), c.marshal(doc), JSON, env);
  }

  /** The last step of a publish: the merged document is stored and its row rewritten, or nothing changes. */
  lemma DocumentStored(c: Codec, w: World, repoId: string, pkg: string, doc: Packument, env: PutEnv,
                       u: iset<Bytes>, other: string)
    requires Sound(w) && CollisionFree(u) && BlobsWithin(w.objects, u)
    requires c.marshal(doc) in u && RoundTrips(c, pkg, doc)
    ensures var (w', ok) := StoreOne(w, repoId, PackumentPath(pkg), c.marshal(doc), JSON, env);
            && BlobsWithin(w'.objects, u)
            && Load(c, w', repoId, pkg) == (if ok then doc else Load(c, w, repoId, pkg))
            && (other != pkg ==> Load(c, w', repoId, other) == Load(c, w, repoId, other))
  {
    StoredDocumentLoads(c, w, repoId, pkg, doc, env, u);
    StoreOneRow(w, repoId, PackumentPath(pkg), c.marshal(doc), JSON, env);
    var (w', ok) := StoreOne(w, repoId, PackumentPath(pkg), c.marshal(doc), JSON, env);
    PathsDiffer(other, pkg, "");
    if other != pkg { SameDocumentLoads(c, w, w', repoId, other); }
    if !ok { SameDocumentLoads(c, w, w', repoId, pkg); }
  }

  /** What a publish does to stored documents, by outcome. `base` is what it loaded. */
  ghost predicate Outcomes(c: Codec, w: World, w': World, out: Outcome, repoId: string, r: Request, other: string) {
    var base, before, after := Base(c, w, repoId, r), Load(c, w, repoId, r.pkg), Load(c, w', repoId, r.pkg);
    && (out.Created? ==>
          r.body.Some? && Disjoint(base.versions, r.body.value.versions) && after == Merged(base, r.body.value))
    && (!out.Created? ==> after == before)
    && (out.Conflict? ==> r.body.Some? && !Disjoint(base.versions, r.body.value.versions))
    && (other != r.pkg ==> Load(c, w', repoId, other) == Load(c, w, repoId, other))
  }

  /** The publish gets as far as storing the merged document. */
  predicate Merges(c: Codec, w: World, repoId: string, r: Request) {
    && r.body.Some? && r.body.value.name != "" && r.body.value.name == r.pkg
    && StoreTarballs(w, repoId, r.pkg, r.attachments).1.Created?
    && Disjoint(Base(c, w, repoId, r).versions, r.body.value.versions)
  }

  lemma PublishSteps(c: Codec, w: World, repoId: string, r: Request)
    ensures var (w', out) := Publish(c, w, repoId, r);
            var w1 := StoreTarballs(w, repoId, r.pkg, r.attachments).0;
            && (Merges(c, w, repoId, r) ==>
                  var doc := Merged(Base(c, w, repoId, r), r.body.value);
                  var (w2, ok) := StoreOne(w1, repoId, PackumentPath(r.pkg), c.marshal(doc), JSON, r.env);
                  w' == w2 && (out == if ok then Created else Failed))
            && (!Merges(c, w, repoId, r) ==> (w' == w || w' == w1) && !out.Created?)
            && (out.Conflict? ==> r.body.Some? && !Disjoint(Base(c, w, repoId, r).versions, r.body.value.versions))
  {
  }

  /**
   The outcome of one publish: answered 201, the stored packument is the merge of what was
   loaded with the posted one, whose versions were all new there; answered otherwise, it is
   unchanged. Other packages are never touched.
   */
  lemma PublishOutcome(c: Codec, w: World, repoId: string, r: Request, u: iset<Bytes>, other: string)
    requires Sound(w) && BlobsWithin(w.objects, u) && Clean(c, w, repoId, r, u)
    ensures var (w', out) := Publish(c, w, repoId, r);
            Sound(w') && BlobsWithin(w'.objects, u) && Outcomes(c, w, w', out, repoId, r, other)
  {
    var w1 := StoreTarballs(w, repoId, r.pkg, r.attachments).0;
    PublishSound(c, w, repoId, r);
    TarballsKeepLoads(c, w, repoId, r.pkg, r.attachments, u, r.pkg);
    TarballsKeepLoads(c, w, repoId, r.pkg, r.attachments, u, other);
    PublishSteps(c, w, repoId, r);
    if Merges(c, w, repoId, r) {
      DocumentStored(c, w1, repoId, r.pkg, Merged(Base(c, w, repoId, r), r.body.value), r.env, u, other);
    }
  }

  // ---------------------------------------------------------------- whether versions are kept

  /** Every version is still there, with the same metadata. */
  ghost predicate Keeps(before: map<string, string>, after: map<string, string>) {
    forall v :: v in before ==> v in after && after[v] == before[v]
  }

  /** An accepted publish that could not load the stored packument and does not bring all of its versions itself. */
  ghost predicate Forgets(c: Codec, w: World, repoId: string, r: Request) {
    && Publish(c, w, repoId, r).1.Created? && r.body.Some?
    && (r.load.row || r.load.blob)
    && !Keeps(Load(c, w, repoId, r.pkg).versions, r.body.value.versions)
  }

  /** Every version is, with the same metadata, in the one or in the other. */
  ghost predicate Covered(before: map<string, string>, base: map<string, string>, posted: map<string, string>) {
    forall v :: v in before ==> (v in base && base[v] == before[v]) || (v in posted && posted[v] == before[v])
  }

  lemma MergedKeepsIff(before: map<string, string>, base: Packument, p: Packument)
    requires Disjoint(base.versions, p.versions)
    ensures Keeps(before, Merged(base, p).versions) <==> Covered(before, base.versions, p.versions)
  {
  }

  /** A publish keeps what was published of its package exactly if it is not of that kind. */
  lemma PublishKeepsIff(c: Codec, w: World, repoId: string, r: Request, u: iset<Bytes>)
    requires Sound(w) && BlobsWithin(w.objects, u) && Clean(c, w, repoId, r, u)
    ensures Keeps(Load(c, w, repoId, r.pkg).versions, Load(c, Publish(c, w, repoId, r).0, repoId, r.pkg).versions) <==>
            !Forgets(c, w, repoId, r)
  {
    PublishOutcome(c, w, repoId, r, u, r.pkg);
    var (w', out) := Publish(c, w, repoId, r);
    if out.Created? {
      MergedKeepsIff(Load(c, w, repoId, r.pkg).versions, Base(c, w, repoId, r), r.body.value);
    }
  }

  /**
   Such publishes there are: whatever is stored, when the query for its row fails a publish
   is accepted, and the package then has the posted versions and no others.
   */
  lemma FailedLoadForgets(c: Codec, w: World, repoId: string, body: Packument, env: PutEnv, u: iset<Bytes>)
    requires Sound(w) && BlobsWithin(w.objects, u) && env.faults == NO_FAULTS && env.rowOk && body.name != ""
    requires Clean(c, w, repoId, Request(body.name, Some(body), LoadFaults(true, false), [], env), u)
    ensures var r := Request(body.name, Some(body), LoadFaults(true, false), [], env);
            var (w', out) := Publish(c, w, repoId, r);
            && out.Created? && Load(c, w', repoId, body.name).versions == body.versions
            && (Keeps(Load(c, w, repoId, body.name).versions, body.versions) <==> !Forgets(c, w, repoId, r))
  {
    var r := Request(body.name, Some(body), LoadFaults(true, false), [], env);
    PublishOutcome(c, w, repoId, r, u, body.name);
    NothingLoaded(body);
  }

  lemma NothingLoaded(body: Packument)
    ensures Disjoint(NewPackument(body.name).versions, body.versions)
    ensures Merged(NewPackument(body.name), body).versions == body.versions
  {
  }

  // ---------------------------------------------------------------- whole runs

  ghost function After(c: Codec, w: World, repoId: string, rs: seq<Request>): World {
    if rs == [] then w else Publish(c, After(c, w, repoId, rs[..|rs| - 1]), repoId, rs[|rs| - 1]).0
  }

  ghost predicate AllClean(c: Codec, w: World, repoId: string, rs: seq<Request>, u: iset<Bytes>) {
    forall n :: 0 <= n < |rs| ==> Clean(c, After(c, w, repoId, rs[..n]), repoId, rs[n], u)
  }

  lemma AllCleanEarlier(c: Codec, w: World, repoId: string, rs: seq<Request>, u: iset<Bytes>)
    requires AllClean(c, w, repoId, rs, u) && rs != []
    ensures AllClean(c, w, repoId, rs[..|rs| - 1], u)
  {
    var front := rs[..|rs| - 1];
    assert forall m :: 0 <= m < |front| ==> front[..m] == rs[..m] && front[m] == rs[m];
  }

  lemma {:induction false} RunKeepsSound(c: Codec, w: World, repoId: string, rs: seq<Request>, u: iset<Bytes>)
    requires Sound(w) && BlobsWithin(w.objects, u) && AllClean(c, w, repoId, rs, u)
    ensures Sound(After(c, w, repoId, rs)) && BlobsWithin(After(c, w, repoId, rs).objects, u)
  {
    if rs != [] {
      var n := |rs| - 1;
      AllCleanEarlier(c, w, repoId, rs, u);
      RunKeepsSound(c, w, repoId, rs[..n], u);
      PublishOutcome(c, After(c, w, repoId, rs[..n]), repoId, rs[n], u, "");
    }
  }

  /** No publish of the run takes a version of the package away or changes it. */
  ghost predicate AlwaysKept(c: Codec, w: World, repoId: string, rs: seq<Request>, pkg: string) {
    rs == [] ||
    (&& AlwaysKept(c, w, repoId, rs[..|rs| - 1], pkg)
     && Keeps(Load(c, After(c, w, repoId, rs[..|rs| - 1]), repoId, pkg).versions,
              Load(c, After(c, w, repoId, rs), repoId, pkg).versions))
  }

  ghost predicate NeverForgets(c: Codec, w: World, repoId: string, rs: seq<Request>, pkg: string) {
    rs == [] ||
    (&& NeverForgets(c, w, repoId, rs[..|rs| - 1], pkg)
     && (rs[|rs| - 1].pkg == pkg ==> !Forgets(c, After(c, w, repoId, rs[..|rs| - 1]), repoId, rs[|rs| - 1])))
  }

  lemma LastPublishKeepsIff(c: Codec, w: World, repoId: string, rs: seq<Request>, u: iset<Bytes>, pkg: string)
    requires Sound(w) && BlobsWithin(w.objects, u) && AllClean(c, w, repoId, rs, u) && rs != []
    ensures var before := After(c, w, repoId, rs[..|rs| - 1]);
            Keeps(Load(c, before, repoId, pkg).versions, Load(c, After(c, w, repoId, rs), repoId, pkg).versions) <==>
            (rs[|rs| - 1].pkg == pkg ==> !Forgets(c, before, repoId, rs[|rs| - 1]))
  {
    var n := |rs| - 1;
    var before := After(c, w, repoId, rs[..n]);
    AllCleanEarlier(c, w, repoId, rs, u);
    RunKeepsSound(c, w, repoId, rs[..n], u);
    if rs[n].pkg == pkg {
      PublishKeepsIff(c, before, repoId, rs[n], u);
    } else {
      PublishOutcome(c, before, repoId, rs[n], u, pkg);
    }
  }

  /**
   Over any run of publishes, to any packages, no published version of a package is ever
   taken away or changed, if and only if no accepted publish to it failed to load what was
   stored and left out some of it.
   */
  lemma {:induction false} RunKeepsVersionsIff(c: Codec, w: World, repoId: string, rs: seq<Request>, u: iset<Bytes>,
                                               pkg: string)
    requires Sound(w) && BlobsWithin(w.objects, u) && AllClean(c, w, repoId, rs, u)
    ensures AlwaysKept(c, w, repoId, rs, pkg) <==> NeverForgets(c, w, repoId, rs, pkg)
  {
    if rs != [] {
      AllCleanEarlier(c, w, repoId, rs, u);
      RunKeepsVersionsIff(c, w, repoId, rs[..|rs| - 1], u, pkg);
      LastPublishKeepsIff(c, w, repoId, rs, u, pkg);
    }
  }

  /** Then a version that maps to some metadata maps to it forever. */
  lemma {:induction false} VersionsAreForever(c: Codec, w: World, repoId: string, rs: seq<Request>, u: iset<Bytes>,
                                              pkg: string)
    requires Sound(w) && BlobsWithin(w.objects, u) && AllClean(c, w, repoId, rs, u)
    ensures NeverForgets(c, w, repoId, rs, pkg) ==>
              Keeps(Load(c, w, repoId, pkg).versions, Load(c, After(c, w, repoId, rs), repoId, pkg).versions)
  {
    if rs != [] {
      AllCleanEarlier(c, w, repoId, rs, u);
      VersionsAreForever(c, w, repoId, rs[..|rs| - 1], u, pkg);
      LastPublishKeepsIff(c, w, repoId, rs, u, pkg);
    }
  }

  // ---------------------------------------------------------------- tarballs

  /** The row at `path` is what storing these bytes there would make it. */
  predicate RowIs(rows: Rows, repoId: string, path: string, bytes: Bytes, mediaType: string) {
    var a := LookUp(rows, repoId, path);
    && a.Some? && a.value.digest == DigestOf(bytes) && a.value.size == |bytes|
    && a.value.mediaType == mediaType && a.value.metadata == "{}"
  }

  /** The file's row already names the attached bytes. */
  predicate Already(rows: Rows, repoId: string, pkg: string, att: Attachment) {
    att.data.Some? && RowIs(rows, repoId, TarballPath(pkg, att.filename), att.data.value, OCTETS)
  }

  /** The same of the first `n` of several files. */
  predicate AllAlready(rows: Rows, repoId: string, pkg: string, atts: seq<Attachment>, n: nat)
    requires n <= |atts|
  {
    forall i :: 0 <= i < n ==> Already(rows, repoId, pkg, atts[i])
  }

  lemma AllAlreadyInFront(rows: Rows, repoId: string, pkg: string, atts: seq<Attachment>, n: nat)
    requires n < |atts|
    ensures AllAlready(rows, repoId, pkg, atts[..|atts| - 1], n) <==> AllAlready(rows, repoId, pkg, atts, n)
    ensures AllAlready(rows, repoId, pkg, atts, n + 1) <==>
            AllAlready(rows, repoId, pkg, atts, n) && Already(rows, repoId, pkg, atts[n])
  {
    assert forall i :: 0 <= i < n ==> atts[..|atts| - 1][i] == atts[i];
  }

  /** How many attachments are stored, with their rows, before the loop stops. */
  function StoredCount(w: World, repoId: string, pkg: string, atts: seq<Attachment>): (n: nat)
    ensures n <= |atts|
    ensures n == |atts| <==> StoreTarballs(w, repoId, pkg, atts).1.Created?
  {
    if StoreTarballs(w, repoId, pkg, atts).1.Created? then |atts|
    else StoredCount(w, repoId, pkg, atts[..|atts| - 1])
  }

  function RebindCount(w: World, repoId: string, r: Request): (n: nat)
    ensures n <= |r.attachments|
  {
    if r.body.None? || r.body.value.name == "" || r.body.value.name != r.pkg then 0
    else StoredCount(w, repoId, r.pkg, r.attachments)
  }

  /** The attachments are a map by filename. */
  predicate DistinctFiles(atts: seq<Attachment>) {
    forall i, j :: 0 <= i < j < |atts| ==> atts[i].filename != atts[j].filename
  }

  lemma TarballPathInjective(pkg: string, a: string, b: string)
    requires TarballPath(pkg, a) == TarballPath(pkg, b)
    ensures a == b
  {
    var head := "tarballs/" + pkg + "/";
    assert TarballPath(pkg, a)[|head|..] == a && TarballPath(pkg, b)[|head|..] == b;
  }

  /** Storing the tarballs leaves every row alone that is not one of theirs. */
  lemma {:induction false} TarballsTouchOnlyTheirs(w: World, repoId: string, pkg: string, atts: seq<Attachment>,
                                                   repo: string, path: string)
    requires forall i :: 0 <= i < |atts| ==> (repo, path) != (repoId, TarballPath(pkg, atts[i].filename))
    ensures LookUp(StoreTarballs(w, repoId, pkg, atts).0.rows, repo, path) == LookUp(w.rows, repo, path)
  {
    if atts != [] {
      var front, a := atts[..|atts| - 1], atts[|atts| - 1];
      assert forall i :: 0 <= i < |front| ==> front[i] == atts[i];
      TarballsTouchOnlyTheirs(w, repoId, pkg, front, repo, path);
      if a.data.Some? {
        StoreOneRow(StoreTarballs(w, repoId, pkg, front).0, repoId, TarballPath(pkg, a.filename), a.data.value, OCTETS,
                    a.env);
      }
    }
  }

  /** Tables are equal when every look-up is. */
  lemma SameLookUps(a: Rows, b: Rows)
    requires forall r, p :: LookUp(a, r, p) == LookUp(b, r, p)
    ensures a == b
  {
    forall k | k in a || k in b ensures k in a && k in b && a[k] == b[k] {
      assert LookUp(a, k.0, k.1) == LookUp(b, k.0, k.1) && k == (k.0, k.1);
    }
  }

  /**
   One more row written: the table is back where it started exactly when it was there
   before and that row already read like this. `start` and `w` agree on that row.
   */
  lemma OneMoreRow(start: Rows, w: World, repoId: string, path: string, bytes: Bytes, mediaType: string, env: PutEnv)
    requires ValidRows(w.rows) && LookUp(w.rows, repoId, path) == LookUp(start, repoId, path)
    requires StoreOne(w, repoId, path, bytes, mediaType, env).1
    ensures StoreOne(w, repoId, path, bytes, mediaType, env).0.rows == start <==>
            w.rows == start && RowIs(start, repoId, path, bytes, mediaType)
  {
    var w' := StoreOne(w, repoId, path, bytes, mediaType, env).0;
    StoreOneRow(w, repoId, path, bytes, mediaType, env);
    if w'.rows == start {
      forall r, p ensures LookUp(w.rows, r, p) == LookUp(start, r, p) {
        if (r, p) != (repoId, path) { assert LookUp(w'.rows, r, p) == LookUp(w.rows, r, p); }
      }
      SameLookUps(w.rows, start);
    }
    if w.rows == start && RowIs(start, repoId, path, bytes, mediaType) {
      forall r, p ensures LookUp(w'.rows, r, p) == LookUp(start, r, p) {
        if (r, p) != (repoId, path) { assert LookUp(w'.rows, r, p) == LookUp(w.rows, r, p); }
      }
      SameLookUps(w'.rows, start);
    }
  }

  lemma {:induction false} TarballsLeaveRowsIff(w: World, repoId: string, pkg: string, atts: seq<Attachment>)
    requires ValidRows(w.rows) && DistinctFiles(atts)
    ensures ValidRows(StoreTarballs(w, repoId, pkg, atts).0.rows)
    ensures StoreTarballs(w, repoId, pkg, atts).0.rows == w.rows <==>
            AllAlready(w.rows, repoId, pkg, atts, StoredCount(w, repoId, pkg, atts))
  {
    if atts != [] {
      var front, a := atts[..|atts| - 1], atts[|atts| - 1];
      assert forall i :: 0 <= i < |front| ==> front[i] == atts[i];
      TarballsLeaveRowsIff(w, repoId, pkg, front);
      LastTarballStep(w, repoId, pkg, atts);
      AllAlreadyInFront(w.rows, repoId, pkg, atts, StoredCount(w, repoId, pkg, front));
      if StoredCount(w, repoId, pkg, atts) == |atts| { OneMoreTarball(w, repoId, pkg, front, a); }
    }
  }

  /** The last attachment is stored with its row, or the table stays as the others left it. */
  lemma LastTarballStep(w: World, repoId: string, pkg: string, atts: seq<Attachment>)
    requires atts != []
    ensures var front, a := atts[..|atts| - 1], atts[|atts| - 1];
            var w1, w' := StoreTarballs(w, repoId, pkg, front).0, StoreTarballs(w, repoId, pkg, atts).0;
            && (ValidRows(w1.rows) ==> ValidRows(w'.rows))
            && (StoredCount(w, repoId, pkg, atts) == |atts| ==>
                  && StoredCount(w, repoId, pkg, front) == |front| && a.data.Some?
                  && StoreOne(w1, repoId, TarballPath(pkg, a.filename), a.data.value, OCTETS, a.env) == (w', true))
            && (StoredCount(w, repoId, pkg, atts) < |atts| ==>
                  StoredCount(w, repoId, pkg, front) == StoredCount(w, repoId, pkg, atts) && w'.rows == w1.rows)
  {
  }

  lemma OneMoreTarball(w: World, repoId: string, pkg: string, front: seq<Attachment>, a: Attachment)
    requires forall i :: 0 <= i < |front| ==> front[i].filename != a.filename
    requires ValidRows(StoreTarballs(w, repoId, pkg, front).0.rows) && a.data.Some?
    requires StoreOne(StoreTarballs(w, repoId, pkg, front).0, repoId, TarballPath(pkg, a.filename), a.data.value,
                      OCTETS, a.env).1
    ensures var w1 := StoreTarballs(w, repoId, pkg, front).0;
            StoreOne(w1, repoId, TarballPath(pkg, a.filename), a.data.value, OCTETS, a.env).0.rows == w.rows <==>
            w1.rows == w.rows && Already(w.rows, repoId, pkg, a)
  {
    var path := TarballPath(pkg, a.filename);
    forall i | 0 <= i < |front| ensures TarballPath(pkg, front[i].filename) != path {
      if TarballPath(pkg, front[i].filename) == path { TarballPathInjective(pkg, front[i].filename, a.filename); }
    }
    TarballsTouchOnlyTheirs(w, repoId, pkg, front, repoId, path);
    OneMoreRow(w.rows, StoreTarballs(w, repoId, pkg, front).0, repoId, path, a.data.value, OCTETS, a.env);
  }

  /**
   When a publish leaves the artifact table as it was, whatever it is answered: exactly
   when every attachment it got to store was there already under its name, and an
   accepted publish stored the same document again. Tarballs are written before the
   conflict check, so a conflict has stored all of them.
   */
  lemma PublishLeavesRowsIff(c: Codec, w: World, repoId: string, r: Request)
    requires ValidRows(w.rows) && DistinctFiles(r.attachments)
    ensures var (w', out) := Publish(c, w, repoId, r);
            && (out.Conflict? || out.Created? ==> RebindCount(w, repoId, r) == |r.attachments|)
            && (w'.rows == w.rows <==>
                  && AllAlready(w.rows, repoId, r.pkg, r.attachments, RebindCount(w, repoId, r))
                  && (out.Created? ==>
                        var merged := Merge(Base(c, w, repoId, r), r.body.value);
                        merged.Some? && RowIs(w.rows, repoId, PackumentPath(r.pkg), c.marshal(merged.value), JSON)))
  {
    if r.body.Some? && r.body.value.name != "" && r.body.value.name == r.pkg {
      TarballsLeaveRowsIff(w, repoId, r.pkg, r.attachments);
      var merged := Merge(Base(c, w, repoId, r), r.body.value);
      var w1 := StoreTarballs(w, repoId, r.pkg, r.attachments).0;
      if merged.Some? {
        forall i | 0 <= i < |r.attachments|
          ensures TarballPath(r.pkg, r.attachments[i].filename) != PackumentPath(r.pkg)
        {
          PathsDiffer(r.pkg, r.pkg, r.attachments[i].filename);
        }
        TarballsTouchOnlyTheirs(w, repoId, r.pkg, r.attachments, repoId, PackumentPath(r.pkg));
        StoreOneRow(w1, repoId, PackumentPath(r.pkg), c.marshal(merged.value), JSON, r.env);
        if StoreOne(w1, repoId, PackumentPath(r.pkg), c.marshal(merged.value), JSON, r.env).1 {
          OneMoreRow(w.rows, w1, repoId, PackumentPath(r.pkg), c.marshal(merged.value), JSON, r.env);
        }
      }
    }
  }

  /** What the last attachment does to the table. */
  lemma LastTarball(w: World, repoId: string, pkg: string, atts: seq<Attachment>, path: string)
    requires atts != []
    ensures var a := atts[|atts| - 1];
            var before := StoreTarballs(w, repoId, pkg, atts[..|atts| - 1]).0.rows;
            var (w', out) := StoreTarballs(w, repoId, pkg, atts);
            && (out.Created? ==> Already(w'.rows, repoId, pkg, a))
            && (path != TarballPath(pkg, a.filename) ==> LookUp(w'.rows, repoId, path) == LookUp(before, repoId, path))
  {
    var a := atts[|atts| - 1];
    if a.data.Some? {
      StoreOneRow(StoreTarballs(w, repoId, pkg, atts[..|atts| - 1]).0, repoId, TarballPath(pkg, a.filename),
                  a.data.value, OCTETS, a.env);
    }
  }

  lemma SameRow(rows: Rows, rows': Rows, repoId: string, pkg: string, att: Attachment)
    requires var path := TarballPath(pkg, att.filename);
             LookUp(rows', repoId, path) == LookUp(rows, repoId, path) && Already(rows, repoId, pkg, att)
    ensures Already(rows', repoId, pkg, att)
  {
  }

  lemma {:induction false} TarballRow(w: World, repoId: string, pkg: string, atts: seq<Attachment>, i: nat)
    requires i < StoredCount(w, repoId, pkg, atts)
    requires forall j :: i < j < |atts| ==> atts[j].filename != atts[i].filename
    ensures Already(StoreTarballs(w, repoId, pkg, atts).0.rows, repoId, pkg, atts[i])
    decreases |atts|, 1
  {
    if i < |atts| - 1 {
      TarballRowInFront(w, repoId, pkg, atts, i);
      OtherTarballKeeps(w, repoId, pkg, atts, atts[i]);
    } else {
      LastTarball(w, repoId, pkg, atts, "");
    }
  }

  lemma {:induction false} OtherTarballKeeps(w: World, repoId: string, pkg: string, atts: seq<Attachment>,
                                             a: Attachment)
    requires atts != [] && atts[|atts| - 1].filename != a.filename
    requires Already(StoreTarballs(w, repoId, pkg, atts[..|atts| - 1]).0.rows, repoId, pkg, a)
    ensures Already(StoreTarballs(w, repoId, pkg, atts).0.rows, repoId, pkg, a)
  {
    TarballPathsDiffer(pkg, atts[|atts| - 1].filename, a.filename);
    LastTarball(w, repoId, pkg, atts, TarballPath(pkg, a.filename));
    SameRow(StoreTarballs(w, repoId, pkg, atts[..|atts| - 1]).0.rows, StoreTarballs(w, repoId, pkg, atts).0.rows,
            repoId, pkg, a);
  }

  lemma TarballPathsDiffer(pkg: string, a: string, b: string)
    requires a != b
    ensures TarballPath(pkg, a) != TarballPath(pkg, b)
  {
    if TarballPath(pkg, a) == TarballPath(pkg, b) { TarballPathInjective(pkg, a, b); }
  }

  lemma {:induction false} TarballRowInFront(w: World, repoId: string, pkg: string, atts: seq<Attachment>, i: nat)
    requires i < |atts| - 1 && i < StoredCount(w, repoId, pkg, atts)
    requires forall j :: i < j < |atts| ==> atts[j].filename != atts[i].filename
    ensures Already(StoreTarballs(w, repoId, pkg, atts[..|atts| - 1]).0.rows, repoId, pkg, atts[i])
    decreases |atts|, 0
  {
    var front := atts[..|atts| - 1];
    StoredCountInFront(w, repoId, pkg, atts);
    assert forall j :: 0 <= j < |front| ==> front[j] == atts[j];
    TarballRow(w, repoId, pkg, front, i);
  }

  lemma StoredCountInFront(w: World, repoId: string, pkg: string, atts: seq<Attachment>)
    requires atts != []
    ensures StoredCount(w, repoId, pkg, atts) <= StoredCount(w, repoId, pkg, atts[..|atts| - 1]) + 1
    ensures StoredCount(w, repoId, pkg, atts) < |atts| ==>
              StoredCount(w, repoId, pkg, atts) == StoredCount(w, repoId, pkg, atts[..|atts| - 1])
  {
  }

  /**
   Whatever a publish is answered, every file it got to store, and a conflict every file it
   carried, is bound to its bytes.
   */
  lemma ConflictRebindsTarballs(c: Codec, w: World, repoId: string, r: Request, i: nat)
    requires i < |r.attachments|
    requires forall j :: i < j < |r.attachments| ==> r.attachments[j].filename != r.attachments[i].filename
    ensures var (w', out) := Publish(c, w, repoId, r);
            out.Conflict? || i < RebindCount(w, repoId, r) ==> Already(w'.rows, repoId, r.pkg, r.attachments[i])
  {
    PublishSteps(c, w, repoId, r);
    if i < RebindCount(w, repoId, r) {
      TarballRow(w, repoId, r.pkg, r.attachments, i);
      if Merges(c, w, repoId, r) {
        var doc := Merged(Base(c, w, repoId, r), r.body.value);
        PathsDiffer(r.pkg, r.pkg, r.attachments[i].filename);
        StoreOneRow(StoreTarballs(w, repoId, r.pkg, r.attachments).0, repoId, PackumentPath(r.pkg), c.marshal(doc),
                    JSON, r.env);
      }
    }
  }

  /**
   Conflicts do rebind: after any accepted publish that brought a version, posting it
   again with one file is refused as a conflict, and the file's row then names the bytes
   of the refused publish. The table is unchanged only if it named them before.
   */
  lemma RepublishRebinds(c: Codec, w: World, repoId: string, r: Request, filename: string, bytes: Bytes, env: PutEnv,
                         u: iset<Bytes>)
    requires Sound(w) && BlobsWithin(w.objects, u) && Clean(c, w, repoId, r, u)
    requires r.body.Some? && r.body.value.versions != map[]
    requires env.faults == NO_FAULTS && env.rowOk
    ensures var (w1, first) := Publish(c, w, repoId, r);
            var again := r.(load := LOADS, attachments := [Attachment(filename, Some(bytes), env)]);
            var (w2, second) := Publish(c, w1, repoId, again);
            first.Created? ==>
              && second.Conflict?
              && RowIs(w2.rows, repoId, TarballPath(r.pkg, filename), bytes, OCTETS)
              && (w2.rows == w1.rows <==> RowIs(w1.rows, repoId, TarballPath(r.pkg, filename), bytes, OCTETS))
  {
    var (w1, first) := Publish(c, w, repoId, r);
    var again := r.(load := LOADS, attachments := [Attachment(filename, Some(bytes), env)]);
    if first.Created? {
      PublishOutcome(c, w, repoId, r, u, r.pkg);
      var v :| v in r.body.value.versions;
      assert v in Load(c, w1, repoId, r.pkg).versions;
      OneTarball(w1, repoId, r.pkg, filename, bytes, env);
      CreatedNames(c, w, repoId, r);
      TarballThenConflict(c, w1, repoId, again);
      PublishLeavesRowsIff(c, w1, repoId, again);
      OneAlready(w1.rows, repoId, r.pkg, again.attachments);
    }
  }

  lemma CreatedNames(c: Codec, w: World, repoId: string, r: Request)
    ensures Publish(c, w, repoId, r).1.Created? ==> r.body.Some? && r.body.value.name == r.pkg != ""
  {
  }

  /** With its tarballs stored, a publish of a version that is there is a conflict and changes nothing more. */
  lemma TarballThenConflict(c: Codec, w: World, repoId: string, r: Request)
    requires r.body.Some? && r.body.value.name == r.pkg != ""
    requires StoreTarballs(w, repoId, r.pkg, r.attachments).1.Created?
    requires !Disjoint(Base(c, w, repoId, r).versions, r.body.value.versions)
    ensures Publish(c, w, repoId, r) == (StoreTarballs(w, repoId, r.pkg, r.attachments).0, Conflict)
  {
  }

  lemma OneAlready(rows: Rows, repoId: string, pkg: string, atts: seq<Attachment>)
    requires |atts| == 1
    ensures AllAlready(rows, repoId, pkg, atts, 1) <==> Already(rows, repoId, pkg, atts[0])
  {
  }

  lemma OneTarball(w: World, repoId: string, pkg: string, filename: string, bytes: Bytes, env: PutEnv)
    requires env.faults == NO_FAULTS && env.rowOk
    ensures var (w', out) := StoreTarballs(w, repoId, pkg, [Attachment(filename, Some(bytes), env)]);
            out.Created? && RowIs(w'.rows, repoId, TarballPath(pkg, filename), bytes, OCTETS)
  {
    var a := Attachment(filename, Some(bytes), env);
    assert [a][..0] == [];
    StoreOneRow(w, repoId, TarballPath(pkg, filename), bytes, OCTETS, env);
  }

  /**
   Immutability rests on the stored packument's blob: if its row is there but the blob
   is gone, no publish is refused as a conflict, and an accepted one replaces all that
   was published by its own versions.
   */
  lemma LostBlobForgetsVersions(c: Codec, w: World, repoId: string, r: Request, u: iset<Bytes>)
    requires Intact(w.objects) && BlobsWithin(w.objects, u) && Clean(c, w, repoId, r, u)
    requires var a := LookUp(w.rows, repoId, PackumentPath(r.pkg)); a.Some? && !HasBlob(w.objects, a.value.digest)
    ensures var (w', out) := Publish(c, w, repoId, r);
            && !out.Conflict?
            && (out.Created? ==> r.body.Some? && Load(c, w', repoId, r.pkg).versions == r.body.value.versions)
  {
    if r.body.Some? {
      var doc := Merged(NewPackument(r.pkg), r.body.value);
      assert doc.versions == r.body.value.versions;
      TarballsLeaveDocument(w, repoId, r.pkg, r.attachments, u, r.pkg);
      StoredDocumentLoads(c, StoreTarballs(w, repoId, r.pkg, r.attachments).0, repoId, r.pkg, doc, r.env, u);
    }
  }
}
