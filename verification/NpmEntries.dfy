/**
 What a package's document says after any run of publishes: which tags, versions and times
 it has and what they map to, read off the requests and their answers.
 */
module NpmEntries {
  import opened Storage
  import opened Cas
  import opened Wrappers
  import opened Registry
  import opened Npm
  import opened NpmRuns

  /** The three maps of a packument. */
  datatype Kind = Tags | Versions | Times

  function Entries(p: Packument, kind: Kind): map<string, string> {
    match kind
    case Tags => p.distTags
    case Versions => p.versions
    case Times => p.time
  }

  /**
   A merge succeeds exactly if no posted version is stored, and then leaves every posted
   entry with its posted value and every text that was posted; of the rest it keeps all.
   */
  lemma MergePublishes(before: Packument, p: Packument, kind: Kind)
    ensures Merge(before, p).Some? <==> NoneStored(before.versions, p.versions)
    ensures Merge(before, p).Some? ==>
              var after := Merge(before, p).value;
              Published(before, p, after) && Overrides(Entries(before, kind), Entries(p, kind), Entries(after, kind))
  {
    if Merge(before, p).Some? {
      UnionOverrides(before.distTags, p.distTags);
      UnionOverrides(before.versions, p.versions);
      UnionOverrides(before.time, p.time);
    } else {
      var v :| v in before.versions && v in p.versions;
    }
  }

  lemma UnionOverrides(before: map<string, string>, posted: map<string, string>)
    ensures Overrides(before, posted, before + posted)
  {
  }

  function Entry(m: map<string, string>, key: string): Option<string> {
    if key in m then Some(m[key]) else None
  }

  lemma OverridesEntry(before: map<string, string>, posted: map<string, string>, after: map<string, string>,
                       key: string)
    requires Overrides(before, posted, after)
    ensures Entry(after, key) == if key in posted then Entry(posted, key) else Entry(before, key)
  {
  }

  /** Read off the requests and their answers: the value that the last accepted publish carrying the entry gave it. */
  ghost function LastPosted(c: Codec, w: World, repoId: string, rs: seq<Request>, pkg: string, kind: Kind, key: string)
    : Option<string>
  {
    if rs == [] then Entry(Entries(Load(c, w, repoId, pkg), kind), key)
    else
      var front, r := rs[..|rs| - 1], rs[|rs| - 1];
      var accepted := Publish(c, After(c, w, repoId, front), repoId, r).1.Created?;
      if !accepted || r.pkg != pkg || r.body.None? then LastPosted(c, w, repoId, front, pkg, kind, key)
      else if key in Entries(r.body.value, kind) then Some(Entries(r.body.value, kind)[key])
      else if r.load.row || r.load.blob then None // It did not see what was stored and replaced all of it.
      else LastPosted(c, w, repoId, front, pkg, kind, key)
  }

  lemma PublishEntry(c: Codec, w: World, repoId: string, r: Request, u: iset<Bytes>, pkg: string, kind: Kind,
                     key: string)
    requires Sound(w) && BlobsWithin(w.objects, u) && Clean(c, w, repoId, r, u)
    ensures var (w', out) := Publish(c, w, repoId, r);
            Entry(Entries(Load(c, w', repoId, pkg), kind), key) ==
            if !out.Created? || r.pkg != pkg || r.body.None? then Entry(Entries(Load(c, w, repoId, pkg), kind), key)
            else if key in Entries(r.body.value, kind) then Some(Entries(r.body.value, kind)[key])
            else if r.load.row || r.load.blob then None
            else Entry(Entries(Load(c, w, repoId, pkg), kind), key)
  {
    var (w', out) := Publish(c, w, repoId, r);
    PublishOutcome(c, w, repoId, r, u, pkg);
    if out.Created? && r.pkg == pkg {
      var base := Base(c, w, repoId, r);
      MergePublishes(base, r.body.value, kind);
      OverridesEntry(Entries(base, kind), Entries(r.body.value, kind), Entries(Merged(base, r.body.value), kind), key);
    }
  }

  /**
   After any run of publishes, to any packages, a tag, version or time of a package is there
   exactly if some publish gave it, and maps to the value that the last accepted publish
   carrying it gave. Only an accepted publish that failed to load the document takes any away.
   */
  lemma {:induction false} EntryIsLastPosted(c: Codec, w: World, repoId: string, rs: seq<Request>, u: iset<Bytes>,
                                             pkg: string, kind: Kind, key: string)
    requires Sound(w) && BlobsWithin(w.objects, u) && AllClean(c, w, repoId, rs, u)
    ensures Entry(Entries(Load(c, After(c, w, repoId, rs), repoId, pkg), kind), key) ==
            LastPosted(c, w, repoId, rs, pkg, kind, key)
  {
    if rs != [] {
      var n := |rs| - 1;
      AllCleanEarlier(c, w, repoId, rs, u);
      RunKeepsSound(c, w, repoId, rs[..n], u);
      EntryIsLastPosted(c, w, repoId, rs[..n], u, pkg, kind, key);
      PublishEntry(c, After(c, w, repoId, rs[..n]), repoId, rs[n], u, pkg, kind, key);
    }
  }

  // ---------------------------------------------------------------- which publishes are accepted

  predicate Works(env: PutEnv) {
    env.faults == NO_FAULTS && env.rowOk
  }

  /** Every attachment decodes, and all that is to be stored can be stored. */
  predicate Faultless(r: Request) {
    && (forall i :: 0 <= i < |r.attachments| ==> r.attachments[i].data.Some? && Works(r.attachments[i].env))
    && Works(r.env)
  }

  lemma StoreWorks(w: World, repoId: string, path: string, bytes: Bytes, mediaType: string, env: PutEnv)
    requires Works(env)
    ensures StoreOne(w, repoId, path, bytes, mediaType, env).1
  {
  }

  lemma {:induction false} TarballsWork(w: World, repoId: string, pkg: string, atts: seq<Attachment>)
    requires forall i :: 0 <= i < |atts| ==> atts[i].data.Some? && Works(atts[i].env)
    ensures StoreTarballs(w, repoId, pkg, atts).1.Created?
  {
    if atts != [] {
      var front, a := atts[..|atts| - 1], atts[|atts| - 1];
      assert forall i :: 0 <= i < |front| ==> front[i] == atts[i];
      TarballsWork(w, repoId, pkg, front);
      StoreWorks(StoreTarballs(w, repoId, pkg, front).0, repoId, TarballPath(pkg, a.filename), a.data.value, OCTETS,
                 a.env);
    }
  }

  /**
   The answers when nothing fails in storing: 400 exactly for a body that cannot be read or
   has another name, 409 exactly if a posted version is among those loaded, and else 201.
   A publish that loads nothing is never a conflict.
   */
  lemma FaultlessAnswers(c: Codec, w: World, repoId: string, r: Request)
    requires Faultless(r)
    ensures var out := Publish(c, w, repoId, r).1;
            var readable := r.body.Some? && r.body.value.name == r.pkg && r.pkg != "";
            var loaded := !r.load.row && !r.load.blob;
            && (out == BadRequest <==> !readable)
            && (out == Conflict <==>
                  && readable && loaded
                  && exists v :: v in r.body.value.versions && v in Load(c, w, repoId, r.pkg).versions)
            && out != Failed
  {
    TarballsWork(w, repoId, r.pkg, r.attachments);
    PublishSteps(c, w, repoId, r);
    if Merges(c, w, repoId, r) {
      StoreWorks(StoreTarballs(w, repoId, r.pkg, r.attachments).0, repoId, PackumentPath(r.pkg),
                 c.marshal(Merged(Base(c, w, repoId, r), r.body.value)), JSON, r.env);
    }
  }
}
