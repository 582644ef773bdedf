/**
 Docker blob uploads: POST opens a session, PATCH appends to its staged file, PUT
 finalizes it into the blob store and the artifact table, DELETE cancels it.
 */
module DockerUpload {
  import opened Storage
  import opened Cas
  import opened Artifacts
  import opened Registry

  /** Session ids with the size kept in memory, and the staged files on local disk. */
  datatype Staging = Staging(sessions: map<string, nat>, files: map<string, Bytes>)

  datatype State = State(staging: Staging, world: World)

  /** What a request body delivers: its bytes, and whether it (and the disk) held out to the end. */
  datatype Chunk = Chunk(bytes: Bytes, complete: bool)

  /** The outside world during one request. */
  datatype Env = Env(startFails: bool, readFails: bool, nonce: string, faults: PutFaults,
                     rowOk: bool, refOk: bool, stamp: Stamp, refStamp: Stamp)

  /** `length` is the Content-Length header, -1 when it is absent. */
  datatype Request =
    | Start(id: string, name: string, digest: string, length: int, chunk: Chunk, env: Env)
    | Status(id: string)
    | Append(id: string, chunk: Chunk)
    | Finish(id: string, name: string, digest: string, length: int, chunk: Chunk, env: Env)
    | Cancel(id: string)

  datatype Outcome = Created | Accepted | NoContent | BadRequest | Unknown | Failed

  predicate NameChar(c: char) {
    'a' <= c <= 'z' || '0' <= c <= '9' || c == '.' || c == '_' || c == '-' || c == '/'
  }

  predicate ValidName(name: string) {
    name != "" && forall i :: 0 <= i < |name| ==> NameChar(name[i])
  }

  function BlobPath(digest: string): string {
    "blobs/" + digest
  }

  function RefPath(name: string, digest: string): string {
    "refs/" + name + "/blobs/" + digest
  }

  function Begin(s: Staging, id: string): Staging {
    Staging(s.sessions[id := 0], s.files[id := []])
  }

  function AppendTo(s: Staging, id: string, chunk: Chunk): (Staging, bool)
    requires id in s.sessions
  {
    if id !in s.files then (s, false)
    else
      (Staging(s.sessions[id := s.sessions[id] + |chunk.bytes|], s.files[id := s.files[id] + chunk.bytes]),
       chunk.complete)
  }

  function Drop(s: Staging, id: string): Staging {
    if id in s.sessions then Staging(s.sessions - {id}, s.files - {id}) else s
  }

  /** `hashed` is what `hashFile` read, `staged` what was read again for `CAS.Put`. */
  function FinalizeReads(w: World, repoId: string, name: string, hashed: Bytes, staged: Bytes,
                         claimed: string, env: Env): (World, bool)
  {
    var actual := DigestOf(hashed);
    if env.readFails || actual != claimed then (w, false) else
    var (w1, put) := PutBlob(w, staged, env.nonce, env.faults);
    if put.Err? then (w1, false) else
    var w2 := PutRow(w1, env.rowOk, env.stamp, repoId, BlobPath(actual), actual, |hashed|, OCTETS);
    if !env.rowOk then (w2, false) else
    (PutRow(w2, env.refOk, env.refStamp, repoId, RefPath(name, actual), actual, |hashed|, OCTETS), env.refOk)
  }

  function Finalize(s: State, repoId: string, name: string, id: string, claimed: string, env: Env): (World, bool)
  {
    if id !in s.staging.files then (s.world, false)
    else FinalizeReads(s.world, repoId, name, s.staging.files[id], s.staging.files[id], claimed, env)
  }

  function HandleStart(s: State, repoId: string, r: Request): (State, Outcome)
    requires r.Start?
  {
    if !ValidName(r.name) then (s, BadRequest)
    else if r.env.startFails then (s, Failed)
    else
      var begun := Begin(s.staging, r.id);
      if r.digest == "" || r.length == 0 then (State(begun, s.world), Accepted) else
      var (filled, ok) := AppendTo(begun, r.id, r.chunk);
      if !ok then (State(Drop(filled, r.id), s.world), Failed) else
      var (w, stored) := Finalize(State(filled, s.world), repoId, r.name, r.id, r.digest, r.env);
      if stored then (State(filled, w), Created) else (State(Drop(filled, r.id), w), BadRequest)
  }

  function HandleFinish(s: State, repoId: string, r: Request): (State, Outcome)
    requires r.Finish? && r.id in s.staging.sessions
  {
    var (filled, ok) := if r.length > 0 then AppendTo(s.staging, r.id, r.chunk) else (s.staging, true);
    if !ok then (State(filled, s.world), Failed)
    else if r.digest == "" then (State(filled, s.world), BadRequest)
    else
      var (w, stored) := Finalize(State(filled, s.world), repoId, r.name, r.id, r.digest, r.env);
      if stored then (State(Drop(filled, r.id), w), Created) else (State(filled, w), BadRequest)
  }

  function Handle(s: State, repoId: string, r: Request): (State, Outcome)
  {
    if r.Start? then HandleStart(s, repoId, r)
    else if r.id !in s.staging.sessions then (s, Unknown)
    else match r
      case Status(_) => (s, NoContent)
      case Append(id, chunk) =>
        var (filled, ok) := AppendTo(s.staging, id, chunk);
        (State(filled, s.world), if ok then Accepted else Failed)
      case Finish(_, _, _, _, _, _) => HandleFinish(s, repoId, r)
      case Cancel(id) => (State(Drop(s.staging, id), s.world), NoContent)
  }

  class Handler {
    const repoId: string
    const cas: CAS
    const store: Store
    var sessions: map<string, nat>
    var files: map<string, Bytes>

    ghost predicate Valid()
      reads this, cas.b, store
    {
      cas.b.Valid() && store.Valid()
    }

    ghost function Contents(): State
      reads this, cas.b, store
    {
      State(Staging(sessions, files), World(cas.b.objects, store.rows))
    }

    constructor (repoId: string, cas: CAS, store: Store)
      requires cas.b.Valid() && store.Valid()
      ensures Valid() && this.repoId == repoId && this.cas == cas && this.store == store
      ensures sessions == map[] && files == map[]
    {
      this.repoId := repoId;
      this.cas := cas;
      this.store := store;
      sessions := map[];
      files := map[];
    }

    method AppendChunk(id: string, chunk: Chunk) returns (ok: bool)
      requires Valid() && id in sessions
      modifies this
      ensures Valid()
      ensures (Contents().staging, ok) == AppendTo(old(Contents().staging), id, chunk)
    {
      if id !in files { return false; }
      files := files[id := files[id] + chunk.bytes];
      sessions := sessions[id := sessions[id] + |chunk.bytes|];
      ok := chunk.complete;
    }

    method DropSession(id: string)
      requires Valid()
      modifies this
      ensures Valid()
      ensures Contents().staging == Drop(old(Contents().staging), id)
    {
      if id in sessions {
        sessions := sessions - {id};
        files := files - {id};
      }
    }

    method FinalizeSession(name: string, id: string, claimed: string, env: Env) returns (ok: bool)
      requires Valid() && LowerHex(env.nonce, 32)
      requires env.rowOk ==> repoId in store.repos.byId
      requires env.refOk ==> repoId in store.repos.byId
      modifies cas.b, store`rows
      ensures Valid()
      ensures (Contents().world, ok) == Finalize(old(Contents()), repoId, name, id, claimed, env)
    {
      if id !in files { return false; }
      var actual, size := DigestOf(files[id]), |files[id]|;
      if env.readFails || actual != claimed { return false; }
      var put := cas.Put(files[id], env.nonce, env.faults);
      if put.Err? { return false; }
      ok := store.UpsertArtifact(env.stamp.id, env.stamp.now, repoId, BlobPath(actual), actual, size, OCTETS, "",
                                 !env.rowOk);
      if !ok { return; }
      ok := store.UpsertArtifact(env.refStamp.id, env.refStamp.now, repoId, RefPath(name, actual), actual, size,
                                 OCTETS, "", !env.refOk);
    }

    method HandleUploadStart(id: string, name: string, digest: string, length: int, chunk: Chunk, env: Env)
      returns (out: Outcome)
      requires Valid() && LowerHex(env.nonce, 32)
      requires env.rowOk || env.refOk ==> repoId in store.repos.byId
      modifies this, cas.b, store`rows
      ensures Valid()
      ensures (Contents(), out) == Handle(old(Contents()), repoId, Start(id, name, digest, length, chunk, env))
    {
      if !ValidName(name) { return BadRequest; }
      if env.startFails { return Failed; }
      sessions := sessions[id := 0];
      files := files[id := []];
      if digest != "" && length != 0 {
        var appended := AppendChunk(id, chunk);
        if !appended {
          DropSession(id);
          return Failed;
        }
        var stored := FinalizeSession(name, id, digest, env);
        if !stored {
          DropSession(id);
          return BadRequest;
        }
        return Created;
      }
      out := Accepted;
    }

    method HandleUploadSession(r: Request) returns (out: Outcome)
      requires Valid() && !r.Start?
      requires r.Finish? ==> LowerHex(r.env.nonce, 32) && (r.env.rowOk || r.env.refOk ==> repoId in store.repos.byId)
      modifies this, cas.b, store`rows
      ensures Valid()
      ensures (Contents(), out) == Handle(old(Contents()), repoId, r)
    {
      if r.id !in sessions { return Unknown; }
      match r {
        case Status(_) => out := NoContent;
        case Append(id, chunk) =>
          var ok := AppendChunk(id, chunk);
          out := if ok then Accepted else Failed;
        case Finish(id, name, digest, length, chunk, env) =>
          if length > 0 {
            var appended := AppendChunk(id, chunk);
            if !appended { return Failed; }
          }
          if digest == "" { return BadRequest; }
          var stored := FinalizeSession(name, id, digest, env);
          if !stored { return BadRequest; }
          DropSession(id);
          out := Created;
        case Cancel(id) =>
          DropSession(id);
          out := NoContent;
      }
    }
  }

  // ---------------------------------------------------------------- whole runs

  ghost function After(s: State, repoId: string, rs: seq<Request>): State {
    if rs == [] then s else Handle(After(s, repoId, rs[..|rs| - 1]), repoId, rs[|rs| - 1]).0
  }

  /** A new session never gets the id of an open one. */
  ghost predicate FreshIds(s: State, repoId: string, rs: seq<Request>) {
    rs == [] ||
    (var r := rs[|rs| - 1];
     && FreshIds(s, repoId, rs[..|rs| - 1])
     && (r.Start? ==> r.id !in After(s, repoId, rs[..|rs| - 1]).staging.sessions))
  }

  /** What one request adds to the bytes sent to a session. */
  function Receive(before: Bytes, r: Request, id: string): Bytes {
    if r.id != id then before
    else match r
      case Start(_, _, digest, length, chunk, _) => if digest != "" && length != 0 then chunk.bytes else []
      case Append(_, chunk) => before + chunk.bytes
      case Finish(_, _, _, length, chunk, _) => if length > 0 then before + chunk.bytes else before
      case _ => before
  }

  /** Read off the requests alone: the bodies sent to a session since it was opened, in order. */
  function Received(rs: seq<Request>, id: string): Bytes {
    if rs == [] then [] else Receive(Received(rs[..|rs| - 1], id), rs[|rs| - 1], id)
  }

  /** Open sessions have a staged file of the recorded size, and no other files linger. */
  ghost predicate Consistent(s: Staging) {
    && s.sessions.Keys == s.files.Keys
    && forall id :: id in s.sessions ==> s.sessions[id] == |s.files[id]|
  }

  /** A session still open after a request has received exactly what the request sent to it. */
  ghost predicate Follows(s: Staging, t: Staging, r: Request) {
    && Consistent(t)
    && (forall id :: id != r.id ==>
          (id in t.files <==> id in s.files) && (id in s.files ==> t.files[id] == s.files[id]))
    && (r.id in t.sessions ==>
          && (r.Start? || r.id in s.sessions)
          && t.files[r.id] == Receive(if r.id in s.files then s.files[r.id] else [], r, r.id))
  }

  lemma OpenFollows(s: Staging, r: Request)
    requires Consistent(s) && r.Start? && (r.digest == "" || r.length == 0)
    ensures Follows(s, Begin(s, r.id), r)
  {
  }

  lemma OpenAndFillFollows(s: Staging, r: Request)
    requires Consistent(s) && r.Start? && r.digest != "" && r.length != 0
    ensures Follows(s, AppendTo(Begin(s, r.id), r.id, r.chunk).0, r)
  {
    assert [] + r.chunk.bytes == r.chunk.bytes;
  }

  lemma OpenAndDropFollows(s: Staging, r: Request)
    requires Consistent(s) && r.Start? && r.id !in s.sessions
    ensures Follows(s, Drop(AppendTo(Begin(s, r.id), r.id, r.chunk).0, r.id), r)
  {
  }

  lemma NothingFollows(s: Staging, r: Request)
    requires Consistent(s) && r.Start? && r.id !in s.sessions
    ensures Follows(s, s, r)
  {
  }

  /** What a POST leaves of the staging area. */
  lemma StartStaging(s: State, repoId: string, r: Request)
    requires r.Start?
    ensures var t, filled := HandleStart(s, repoId, r).0.staging, AppendTo(Begin(s.staging, r.id), r.id, r.chunk).0;
            || t == s.staging
            || (t == Begin(s.staging, r.id) && (r.digest == "" || r.length == 0))
            || (t == filled && r.digest != "" && r.length != 0)
            || t == Drop(filled, r.id)
  {
  }

  lemma StartFollows(s: State, repoId: string, r: Request)
    requires Consistent(s.staging) && r.Start? && r.id !in s.staging.sessions
    ensures Follows(s.staging, HandleStart(s, repoId, r).0.staging, r)
  {
    StartStaging(s, repoId, r);
    NothingFollows(s.staging, r);
    OpenAndDropFollows(s.staging, r);
    if r.digest == "" || r.length == 0 { OpenFollows(s.staging, r); } else { OpenAndFillFollows(s.staging, r); }
  }

  lemma FillFollows(s: Staging, r: Request)
    requires Consistent(s) && r.Finish? && r.id in s.sessions
    ensures var filled := if r.length > 0 then AppendTo(s, r.id, r.chunk).0 else s;
            Follows(s, filled, r) && Follows(s, Drop(filled, r.id), r)
  {
  }

  lemma FinishFollows(s: State, repoId: string, r: Request)
    requires Consistent(s.staging) && r.Finish? && r.id in s.staging.sessions
    ensures Follows(s.staging, HandleFinish(s, repoId, r).0.staging, r)
  {
    FillFollows(s.staging, r);
  }

  /** One request keeps the sessions consistent, touches only the session it addresses, and appends what it sent. */
  lemma HandleFollows(s: State, repoId: string, r: Request)
    requires Consistent(s.staging) && (r.Start? ==> r.id !in s.staging.sessions)
    ensures Follows(s.staging, Handle(s, repoId, r).0.staging, r)
  {
    if r.Start? { StartFollows(s, repoId, r); }
    if r.Finish? && r.id in s.staging.sessions { FinishFollows(s, repoId, r); }
  }

  /**
   For every run of requests, the staged bytes of every open session are the bodies
   sent to it, in order, and the recorded size is their length.
   */
  lemma {:induction false} StagedIsReceived(s: State, repoId: string, rs: seq<Request>, id: string)
    requires s.staging == Staging(map[], map[]) && FreshIds(s, repoId, rs)
    ensures var t := After(s, repoId, rs).staging;
            && Consistent(t)
            && (id in t.sessions ==> t.files[id] == Received(rs, id) && t.sessions[id] == |Received(rs, id)|)
  {
    if rs != [] {
      StagedIsReceived(s, repoId, rs[..|rs| - 1], id);
      HandleFollows(After(s, repoId, rs[..|rs| - 1]), repoId, rs[|rs| - 1]);
    }
  }

  lemma FinalizeSound(w: World, repoId: string, name: string, bytes: Bytes, claimed: string, env: Env)
    requires Sound(w)
    ensures var (w', ok) := FinalizeReads(w, repoId, name, bytes, bytes, claimed, env);
            && Sound(w')
            && (ok ==>
                  && claimed == DigestOf(bytes)
                  && HasBlob(w'.objects, claimed)
                  && Recorded(w'.rows, repoId, BlobPath(claimed), claimed, |bytes|)
                  && Recorded(w'.rows, repoId, RefPath(name, claimed), claimed, |bytes|))
  {
    var actual := DigestOf(bytes);
    if !env.readFails && actual == claimed {
      PutBlobSound(w, bytes, env.nonce, env.faults);
      var w1 := PutBlob(w, bytes, env.nonce, env.faults).0;
      PutRowSoundIff(w1, env.rowOk, env.stamp, repoId, BlobPath(actual), actual, |bytes|, OCTETS);
      var w2 := PutRow(w1, env.rowOk, env.stamp, repoId, BlobPath(actual), actual, |bytes|, OCTETS);
      if HasBlob(w1.objects, actual) {
        PutRowSoundIff(w2, env.refOk, env.refStamp, repoId, RefPath(name, actual), actual, |bytes|, OCTETS);
        assert BlobPath(actual)[0] != RefPath(name, actual)[0];
      }
    }
  }

  predicate Recorded(rows: Rows, repoId: string, path: string, digest: string, size: nat) {
    var a := LookUp(rows, repoId, path);
    a.Some? && a.value.digest == digest && a.value.size == size
  }

  /** A request leaves both stores as they were, or as one finalize does with the staged bytes. */
  lemma HandleFinalizes(s: State, repoId: string, r: Request) returns (bytes: Bytes)
    ensures var w := Handle(s, repoId, r).0.world;
            w == s.world ||
            ((r.Start? || r.Finish?) &&
             w == FinalizeReads(s.world, repoId, r.name, bytes, bytes, r.digest, r.env).0)
  {
    bytes := [];
    if r.Start? {
      var filled := AppendTo(Begin(s.staging, r.id), r.id, r.chunk).0;
      if r.id in filled.files { bytes := filled.files[r.id]; }
    } else if r.Finish? && r.id in s.staging.sessions {
      var filled := if r.length > 0 then AppendTo(s.staging, r.id, r.chunk).0 else s.staging;
      if r.id in filled.files { bytes := filled.files[r.id]; }
    }
  }

  lemma FinalizeTouches(w: World, repoId: string, name: string, bytes: Bytes, claimed: string, env: Env, path: string)
    requires path != BlobPath(DigestOf(bytes)) && path != RefPath(name, DigestOf(bytes))
    ensures LookUp(FinalizeReads(w, repoId, name, bytes, bytes, claimed, env).0.rows, repoId, path) ==
            LookUp(w.rows, repoId, path)
  {
  }

  /** A request writes no rows but those of the blob it uploads, under its digest and under the name it gives. */
  lemma HandleTouches(s: State, repoId: string, r: Request, path: string)
    requires forall body: Bytes :: path != BlobPath(DigestOf(body))
    requires r.Start? || r.Finish? ==> forall body: Bytes :: path != RefPath(r.name, DigestOf(body))
    ensures LookUp(Handle(s, repoId, r).0.world.rows, repoId, path) == LookUp(s.world.rows, repoId, path)
  {
    var bytes := HandleFinalizes(s, repoId, r);
    if r.Start? || r.Finish? { FinalizeTouches(s.world, repoId, r.name, bytes, r.digest, r.env, path); }
  }

  /** Every request keeps every row's blob in place, whatever fails on the way. */
  lemma HandleSound(s: State, repoId: string, r: Request)
    requires Sound(s.world)
    ensures Sound(Handle(s, repoId, r).0.world)
  {
    var bytes := HandleFinalizes(s, repoId, r);
    if r.Start? || r.Finish? { FinalizeSound(s.world, repoId, r.name, bytes, r.digest, r.env); }
  }

  lemma {:induction false} RunSound(s: State, repoId: string, rs: seq<Request>)
    requires Sound(s.world)
    ensures Sound(After(s, repoId, rs).world)
  {
    if rs != [] {
      RunSound(s, repoId, rs[..|rs| - 1]);
      HandleSound(After(s, repoId, rs[..|rs| - 1]), repoId, rs[|rs| - 1]);
    }
  }

  /** The world holds these bytes as the blob `digest`, under both of the rows that an upload writes. */
  ghost predicate Holds(w: World, repoId: string, name: string, digest: string, bytes: Bytes) {
    && digest == DigestOf(bytes)
    && HasBlob(w.objects, digest) && w.objects[KeyFor(digest)] == bytes
    && Recorded(w.rows, repoId, BlobPath(digest), digest, |bytes|)
    && Recorded(w.rows, repoId, RefPath(name, digest), digest, |bytes|)
  }

  lemma FinalizeStores(w: World, repoId: string, name: string, bytes: Bytes, claimed: string, env: Env, u: iset<Bytes>)
    requires Sound(w) && CollisionFree(u) && BlobsWithin(w.objects, u) && bytes in u
    requires FinalizeReads(w, repoId, name, bytes, bytes, claimed, env).1
    ensures Holds(FinalizeReads(w, repoId, name, bytes, bytes, claimed, env).0, repoId, name, claimed, bytes)
  {
    FinalizeSound(w, repoId, name, bytes, claimed, env);
    PutStoresTheBytes(w.objects, bytes, env.nonce, env.faults, u);
  }

  /**
   A PUT answered 201 has stored the received bytes: the claimed digest is theirs, the
   blob is there, both rows name it with its size, and the session is gone. Barring
   hash collisions the blob is exactly those bytes.
   */
  lemma FinishedUploadIsStored(s: State, repoId: string, rs: seq<Request>, u: iset<Bytes>)
    requires s.staging == Staging(map[], map[]) && Sound(s.world)
    requires rs != [] && FreshIds(s, repoId, rs) && rs[|rs| - 1].Finish?
    requires CollisionFree(u) && BlobsWithin(After(s, repoId, rs[..|rs| - 1]).world.objects, u)
    requires Received(rs, rs[|rs| - 1].id) in u
    ensures var r := rs[|rs| - 1];
            var t := After(s, repoId, rs);
            Handle(After(s, repoId, rs[..|rs| - 1]), repoId, r).1 == Created ==>
              && Holds(t.world, repoId, r.name, r.digest, Received(rs, r.id))
              && r.id !in t.staging.sessions && r.id !in t.staging.files
  {
    var r := rs[|rs| - 1];
    var before := After(s, repoId, rs[..|rs| - 1]);
    StagedIsReceived(s, repoId, rs[..|rs| - 1], r.id);
    RunSound(s, repoId, rs[..|rs| - 1]);
    if Handle(before, repoId, r).1 == Created {
      var filled := if r.length > 0 then AppendTo(before.staging, r.id, r.chunk).0 else before.staging;
      assert filled.files[r.id] == Received(rs, r.id);
      FinalizeStores(before.world, repoId, r.name, filled.files[r.id], r.digest, r.env, u);
    }
  }

  /**
   A PUT is answered 201 exactly when its chunk arrived whole, the claim is the digest of
   all received bytes, and nothing failed.
   */
  lemma FinishCreatedIff(s: State, repoId: string, r: Request)
    requires Consistent(s.staging) && r.Finish? && r.id in s.staging.sessions
    ensures var bytes := s.staging.files[r.id] + (if r.length > 0 then r.chunk.bytes else []);
            Handle(s, repoId, r).1 == Created <==>
            && (r.length > 0 ==> r.chunk.complete)
            && r.digest == DigestOf(bytes)
            && !r.env.readFails && PutBlob(s.world, bytes, r.env.nonce, r.env.faults).1.Ok?
            && r.env.rowOk && r.env.refOk
  {
    assert s.staging.files[r.id] + [] == s.staging.files[r.id];
  }

  /**
   A PUT on an open session that is not answered 201 leaves the session open with the final
   chunk already appended.
   */
  lemma RefusedFinishKeepsSession(s: State, repoId: string, r: Request)
    requires Consistent(s.staging) && r.Finish? && r.id in s.staging.sessions
    requires Handle(s, repoId, r).1 != Created
    ensures var t := Handle(s, repoId, r).0.staging;
            && r.id in t.sessions
            && t.files[r.id] == s.staging.files[r.id] + (if r.length > 0 then r.chunk.bytes else [])
  {
    assert s.staging.files[r.id] + [] == s.staging.files[r.id];
  }

  /**
   A request answered 201 removes its session if and only if it was a PUT: a POST that
   carries the whole blob is also answered 201 but leaves its session and staged file.
   */
  lemma CreatedRemovesSessionIffPut(s: State, repoId: string, r: Request)
    ensures Handle(s, repoId, r).1 == Created ==>
              && (r.Start? || r.Finish?)
              && (r.id !in Handle(s, repoId, r).0.staging.sessions <==> r.Finish?)
  {
  }

  /**
   When requests overlap, the bytes hashed and the bytes stored are read separately. A
   finalize that reports success keeps the stores in agreement if and only if what it
   stored still has the claimed digest, or that blob was there already.
   */
  lemma RacingAppendIff(w: World, repoId: string, name: string, hashed: Bytes, staged: Bytes, claimed: string, env: Env)
    requires Sound(w)
    requires FinalizeReads(w, repoId, name, hashed, staged, claimed, env).1
    ensures Sound(FinalizeReads(w, repoId, name, hashed, staged, claimed, env).0) <==>
            DigestOf(staged) == claimed || HasBlob(w.objects, claimed)
  {
    PutBlobSound(w, staged, env.nonce, env.faults);
    PutKeepsBlobs(w.objects, staged, env.nonce, env.faults);
    DigestIsValid(hashed);
    var w1 := PutBlob(w, staged, env.nonce, env.faults).0;
    PutRowSoundIff(w1, true, env.stamp, repoId, BlobPath(claimed), claimed, |hashed|, OCTETS);
    var w2 := PutRow(w1, true, env.stamp, repoId, BlobPath(claimed), claimed, |hashed|, OCTETS);
    var w3 := PutRow(w2, true, env.refStamp, repoId, RefPath(name, claimed), claimed, |hashed|, OCTETS);
    if HasBlob(w1.objects, claimed) {
      PutRowSoundIff(w2, true, env.refStamp, repoId, RefPath(name, claimed), claimed, |hashed|, OCTETS);
    } else {
      assert (repoId, RefPath(name, claimed)) in w3.rows;
    }
  }
}
