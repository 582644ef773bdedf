/**
 npm publishing: the posted packument is merged into the stored one, its tarballs
 and the merged document are stored as blobs, and rows are written for both.
 */
module Npm {
  import opened Storage
  import opened Cas
  import opened Artifacts
  import opened Wrappers
  import opened Registry

  /**
   A packument without attachments. The metadata of a version is its parsed value; its
   spelling may change in storage.
   */
  datatype Packument = Packument(id: string, name: string, description: string, distTags: map<string, string>,
                                 versions: map<string, string>, readme: string, maintainers: seq<string>,
                                 time: map<string, string>)

  function NewPackument(pkg: string): Packument {
    Packument("", pkg, "", map[], map[], "", [], map[])
  }

  /**
   The JSON library, as far as packuments are concerned. `read` is what parsing leaves in
   the packument it is given, also when it stops half way with an error.
   */
  datatype Codec = Codec(marshal: Packument -> Bytes, read: (Bytes, Packument) -> Packument)

  /** Reading the marshalled document into an empty one of this package gives it back. */
  predicate RoundTrips(c: Codec, pkg: string, p: Packument) {
    c.read(c.marshal(p), NewPackument(pkg)) == p
  }

  // ---------------------------------------------------------------- merging

  predicate Disjoint(a: map<string, string>, b: map<string, string>) {
    a.Keys !! b.Keys
  }

  /** Disjoint union of the versions; incoming tags, times and texts override. */
  function Merged(base: Packument, p: Packument): Packument {
    Packument(
      if base.id == "" then p.id else base.id,
      if base.name == "" then p.name else base.name,
      if p.description != "" then p.description else base.description,
      base.distTags + p.distTags,
      base.versions + p.versions,
      if p.readme != "" then p.readme else base.readme,
      if p.maintainers != [] then p.maintainers else base.maintainers,
      base.time + p.time)
  }

  function Merge(base: Packument, p: Packument): Option<Packument> {
    if Disjoint(base.versions, p.versions) then Some(Merged(base, p)) else None
  }

  /** Every posted entry has its posted value, every other entry is as it was, and there are no more. */
  predicate Overrides(before: map<string, string>, posted: map<string, string>, after: map<string, string>) {
    && (forall k :: k in posted ==> k in after && after[k] == posted[k])
    && (forall k :: k in before && k !in posted ==> k in after && after[k] == before[k])
    && (forall k :: k in after ==> k in before || k in posted)
  }

  predicate NoneStored(before: map<string, string>, posted: map<string, string>) {
    forall v :: v in posted ==> v !in before
  }

  /** What publishing `p` on top of `before` is meant to leave, entry by entry and text by text. */
  predicate Published(before: Packument, p: Packument, after: Packument) {
    && NoneStored(before.versions, p.versions) && Overrides(before.versions, p.versions, after.versions)
    && Overrides(before.distTags, p.distTags, after.distTags) && Overrides(before.time, p.time, after.time)
    && after.description == (if p.description == "" then before.description else p.description)
    && after.readme == (if p.readme == "" then before.readme else p.readme)
    && after.maintainers == (if p.maintainers == [] then before.maintainers else p.maintainers)
    && after.name == (if before.name == "" then p.name else before.name)
    && after.id == (if before.id == "" then p.id else before.id)
  }

  class Document {
    var doc: Packument

    constructor (doc: Packument)
      ensures this.doc == doc
    {
      this.doc := doc;
    }

    /**
     The maps are walked in no particular order. On a conflict the document is left half
     merged, but no version it had is changed.
     */
    method MergeFrom(p: Packument) returns (ok: bool)
      modifies this
      ensures ok <==> Merge(old(doc), p).Some?
      ensures ok ==> doc == Merge(old(doc), p).value
      ensures ok <==> NoneStored(old(doc).versions, p.versions)
      ensures ok ==> Published(old(doc), p, doc)
      ensures forall v :: v in old(doc).versions ==> v in doc.versions && doc.versions[v] == old(doc).versions[v]
    {
      TakeTexts(p);
      var versions;
      versions, ok := AddNew(doc.versions, p.versions);
      doc := doc.(versions := versions);
      if !ok { return; }
      var distTags := Override(doc.distTags, p.distTags);
      var time := Override(doc.time, p.time);
      doc := doc.(distTags := distTags, time := time);
      if p.maintainers != [] { doc := doc.(maintainers := p.maintainers); }
    }

    method TakeTexts(p: Packument)
      modifies this
      ensures doc == Merged(old(doc), p).(distTags := old(doc).distTags, versions := old(doc).versions,
                                          maintainers := old(doc).maintainers, time := old(doc).time)
    {
      if doc.name == "" { doc := doc.(name := p.name); }
      if doc.id == "" { doc := doc.(id := p.id); }
      if p.description != "" { doc := doc.(description := p.description); }
      if p.readme != "" { doc := doc.(readme := p.readme); }
    }
  }

  /** The loop over the posted versions: stops at the first one that exists. */
  method AddNew(base: map<string, string>, incoming: map<string, string>) returns (m: map<string, string>, ok: bool)
    ensures ok <==> Disjoint(base, incoming)
    ensures ok ==> m == base + incoming
    ensures forall v :: v in base ==> v in m && m[v] == base[v]
  {
    m := base;
    var todo := incoming.Keys;
    while todo != {}
      invariant todo <= incoming.Keys
      invariant incoming.Keys - todo !! base.Keys
      invariant m == base + (incoming - todo)
    {
      var v :| v in todo;
      todo := todo - {v};
      if v in m {
        assert v in base;
        return m, false;
      }
      m := m[v := incoming[v]];
    }
    assert incoming - {} == incoming;
    ok := true;
  }

  /** The loops over tags and times: incoming entries win. */
  method Override(base: map<string, string>, incoming: map<string, string>) returns (m: map<string, string>)
    ensures m == base + incoming
  {
    m := base;
    var todo := incoming.Keys;
    while todo != {}
      invariant todo <= incoming.Keys
      invariant m == base + (incoming - todo)
    {
      var k :| k in todo;
      todo := todo - {k};
      m := m[k := incoming[k]];
    }
    assert incoming - {} == incoming;
  }

  /** The version loop for one explicit walking order. */
  function AddVersions(base: map<string, string>, incoming: map<string, string>, order: seq<string>)
    : Option<map<string, string>>
    requires forall v :: v in order ==> v in incoming
    decreases |order|
  {
    if order == [] then Some(base)
    else if order[0] in base then None
    else AddVersions(base[order[0] := incoming[order[0]]], incoming, order[1..])
  }

  ghost predicate Enumerates(order: seq<string>, keys: set<string>) {
    && (forall v :: v in order <==> v in keys)
    && (forall i, j :: 0 <= i < j < |order| ==> order[i] != order[j])
  }

  function Chosen(incoming: map<string, string>, keys: set<string>): map<string, string>
    requires keys <= incoming.Keys
  {
    map v | v in keys :: incoming[v]
  }

  lemma AddOneThenRest(base: map<string, string>, incoming: map<string, string>, v: string, keys: set<string>)
    requires keys <= incoming.Keys && v in keys && v !in base
    ensures base[v := incoming[v]] + Chosen(incoming, keys - {v}) == base + Chosen(incoming, keys)
    ensures base[v := incoming[v]].Keys !! keys - {v} <==> base.Keys !! keys
  {
    assert base[v := incoming[v]].Keys == base.Keys + {v};
  }

  lemma RestEnumerates(order: seq<string>, keys: set<string>)
    requires Enumerates(order, keys) && order != []
    ensures order[0] in keys && Enumerates(order[1..], keys - {order[0]})
  {
    assert order[0] in order;
    forall x ensures x in order[1..] <==> x in keys - {order[0]} {
      if x in order[1..] {
        var i :| 1 <= i < |order| && order[i] == x;
        assert order[0] != order[i];
      }
    }
  }

  /** Whatever the walking order, the loop succeeds exactly on disjoint versions, and then yields their union. */
  lemma {:induction false} OrderDoesNotMatter(base: map<string, string>, incoming: map<string, string>,
                                              order: seq<string>, keys: set<string>)
    requires keys <= incoming.Keys && Enumerates(order, keys)
    ensures AddVersions(base, incoming, order) ==
            if base.Keys !! keys then Some(base + Chosen(incoming, keys)) else None
    decreases |order|
  {
    if order == [] {
      assert keys == {};
      assert base + Chosen(incoming, {}) == base;
    } else {
      var v := order[0];
      RestEnumerates(order, keys);
      if v !in base {
        AddOneThenRest(base, incoming, v, keys);
        OrderDoesNotMatter(base[v := incoming[v]], incoming, order[1..], keys - {v});
      }
    }
  }

  // ---------------------------------------------------------------- publishing

  datatype PutEnv = PutEnv(nonce: string, faults: PutFaults, rowOk: bool, stamp: Stamp)

  /** `data` is absent when its base64 text does not decode. */
  datatype Attachment = Attachment(filename: string, data: Option<Bytes>, env: PutEnv)

  /** What fails while the stored packument is loaded: the query for its row, or opening or reading its blob. */
  datatype LoadFaults = LoadFaults(row: bool, blob: bool)

  const LOADS: LoadFaults := LoadFaults(false, false)

  /**
   `body` is absent when it cannot be read or parsed. The attachments are listed in
   the order in which their map happens to be walked.
   */
  datatype Request = Request(pkg: string, body: Option<Packument>, load: LoadFaults, attachments: seq<Attachment>,
                             env: PutEnv)

  datatype Outcome = Created | BadRequest | Conflict | Failed

  function PackumentPath(pkg: string): string {
    "packuments/" + pkg
  }

  function TarballPath(pkg: string, filename: string): string {
    "tarballs/" + pkg + "/" + filename
  }

  const JSON: string := "application/json"

  /** The stored packument; a new one if there is no row or no blob. Parse errors are ignored. */
  function Load(c: Codec, w: World, repoId: string, pkg: string): Packument {
    var a := LookUp(w.rows, repoId, PackumentPath(pkg));
    if a.Some? && HasBlob(w.objects, a.value.digest) then
      c.read(w.objects[KeyFor(a.value.digest)], NewPackument(pkg))
    else NewPackument(pkg)
  }

  /** What a publish merges into: the stored packument, or a new one if it cannot be loaded. */
  function Loaded(c: Codec, w: World, repoId: string, pkg: string, f: LoadFaults): Packument {
    if f.row || f.blob then NewPackument(pkg) else Load(c, w, repoId, pkg)
  }

  function Base(c: Codec, w: World, repoId: string, r: Request): Packument {
    Loaded(c, w, repoId, r.pkg, r.load)
  }

  function StoreOne(w: World, repoId: string, path: string, bytes: Bytes, mediaType: string, env: PutEnv)
    : (World, bool)
  {
    var (w1, put) := PutBlob(w, bytes, env.nonce, env.faults);
    if put.Err? then (w1, false)
    else (PutRow(w1, env.rowOk, env.stamp, repoId, path, DigestOf(bytes), |bytes|, mediaType), env.rowOk)
  }

  function StoreTarballs(w: World, repoId: string, pkg: string, atts: seq<Attachment>): (r: (World, Outcome))
    ensures !r.1.Conflict?
  {
    if atts == [] then (w, Created)
    else
      var (w1, out) := StoreTarballs(w, repoId, pkg, atts[..|atts| - 1]);
      var a := atts[|atts| - 1];
      if !out.Created? then (w1, out)
      else if a.data.None? then (w1, BadRequest)
      else
        var (w2, ok) := StoreOne(w1, repoId, TarballPath(pkg, a.filename), a.data.value, OCTETS, a.env);
        (w2, if ok then Created else Failed)
  }

  function Publish(c: Codec, w: World, repoId: string, r: Request): (World, Outcome) {
    if r.body.None? || r.body.value.name == "" || r.body.value.name != r.pkg then (w, BadRequest) else
    var stored := Base(c, w, repoId, r);
    var (w1, out) := StoreTarballs(w, repoId, r.pkg, r.attachments);
    if !out.Created? then (w1, out) else
    var merged := Merge(stored, r.body.value);
    if merged.None? then (w1, Conflict) else
    var (w2, ok) := StoreOne(w1, repoId, PackumentPath(r.pkg), c.marshal(merged.value), JSON, r.env);
    (w2, if ok then Created else Failed)
  }

  class Handler {
    const repoId: string
    const cas: CAS
    const store: Store
    const codec: Codec

    ghost predicate Valid()
      reads cas.b, store
    {
      cas.b.Valid() && store.Valid()
    }

    ghost function Contents(): World
      reads cas.b, store
    {
      World(cas.b.objects, store.rows)
    }

    constructor (repoId: string, cas: CAS, store: Store, codec: Codec)
      requires cas.b.Valid() && store.Valid()
      ensures Valid() && this.repoId == repoId && this.cas == cas && this.store == store && this.codec == codec
    {
      this.repoId := repoId;
      this.cas := cas;
      this.store := store;
      this.codec := codec;
    }

    method StoreBlob(path: string, bytes: Bytes, mediaType: string, env: PutEnv) returns (ok: bool)
      requires Valid() && LowerHex(env.nonce, 32) && repoId in store.repos.byId
      modifies cas.b, store`rows
      ensures Valid()
      ensures (Contents(), ok) == StoreOne(old(Contents()), repoId, path, bytes, mediaType, env)
    {
      var digest := cas.Put(bytes, env.nonce, env.faults);
      if digest.Err? { return false; }
      ok := store.UpsertArtifact(env.stamp.id, env.stamp.now, repoId, path, digest.value.digest, |bytes|, mediaType,
                                 "", !env.rowOk);
    }

    method LoadStored(pkg: string, f: LoadFaults) returns (stored: Packument)
      requires Valid()
      ensures stored == Loaded(codec, Contents(), repoId, pkg, f)
    {
      stored := NewPackument(pkg);
      var art := store.GetArtifact(repoId, PackumentPath(pkg), f.row);
      if art.Ok? {
        var blob := cas.Get(art.value.digest, f.blob);
        if blob.Ok? { stored := codec.read(blob.value, stored); }
      }
    }

    method PersistTarballs(pkg: string, atts: seq<Attachment>) returns (out: Outcome)
      requires Valid() && repoId in store.repos.byId
      requires forall i :: 0 <= i < |atts| ==> LowerHex(atts[i].env.nonce, 32)
      modifies cas.b, store`rows
      ensures Valid()
      ensures (Contents(), out) == StoreTarballs(old(Contents()), repoId, pkg, atts)
    {
      for i := 0 to |atts|
        invariant Valid()
        invariant (Contents(), Created) == StoreTarballs(old(Contents()), repoId, pkg, atts[..i])
      {
        var a := atts[i];
        assert atts[..i + 1][..i] == atts[..i];
        if a.data.None? {
          StopsEarly(old(Contents()), repoId, pkg, atts, i + 1);
          return BadRequest;
        }
        var ok := StoreBlob(TarballPath(pkg, a.filename), a.data.value, OCTETS, a.env);
        if !ok {
          StopsEarly(old(Contents()), repoId, pkg, atts, i + 1);
          return Failed;
        }
      }
      assert atts[..|atts|] == atts;
      out := Created;
    }

    method PublishPackument(r: Request) returns (out: Outcome)
      requires Valid() && repoId in store.repos.byId && LowerHex(r.env.nonce, 32)
      requires forall i :: 0 <= i < |r.attachments| ==> LowerHex(r.attachments[i].env.nonce, 32)
      modifies cas.b, store`rows
      ensures Valid()
      ensures (Contents(), out) == Publish(codec, old(Contents()), repoId, r)
    {
      if r.body.None? || r.body.value.name == "" { return BadRequest; }
      var incoming := r.body.value;
      if incoming.name != r.pkg { return BadRequest; }
      var stored := LoadStored(r.pkg, r.load);
      out := PersistTarballs(r.pkg, r.attachments);
      if !out.Created? { return; }
      var doc := new Document(stored);
      var merged := doc.MergeFrom(incoming);
      if !merged { return Conflict; }
      var written := StoreBlob(PackumentPath(r.pkg), codec.marshal(doc.doc), JSON, r.env);
      out := if written then Created else Failed;
    }
  }

  /** Once storing a tarball fails, the later attachments are not looked at. */
  lemma {:induction false} StopsEarly(w: World, repoId: string, pkg: string, atts: seq<Attachment>, n: nat)
    requires n <= |atts| && !StoreTarballs(w, repoId, pkg, atts[..n]).1.Created?
    ensures StoreTarballs(w, repoId, pkg, atts) == StoreTarballs(w, repoId, pkg, atts[..n])
  {
    if n < |atts| {
      assert atts[..|atts| - 1][..n] == atts[..n];
      StopsEarly(w, repoId, pkg, atts[..|atts| - 1], n);
    } else {
      assert atts[..n] == atts;
    }
  }
}
