/** Which upload sessions are open and how requests to them are answered, over whole runs. */
module DockerSessions {
  import opened Storage
  import opened Cas
  import opened Registry
  import opened DockerUpload

  /** A POST that was given this id and answered 202 or, having carried the whole blob, 201. */
  predicate Opens(r: Request, answer: Outcome, id: string) {
    r.Start? && r.id == id && (answer == Accepted || answer == Created)
  }

  /** A DELETE of the session, or a PUT on it that was answered 201. */
  predicate Closes(r: Request, answer: Outcome, id: string) {
    r.id == id && (r.Cancel? || (r.Finish? && answer == Created))
  }

  /** Read off the requests and their answers: opened, and not closed since. */
  ghost predicate OpenAfter(s: State, repoId: string, rs: seq<Request>, id: string) {
    rs != [] &&
    (var r, answer := rs[|rs| - 1], Handle(After(s, repoId, rs[..|rs| - 1]), repoId, rs[|rs| - 1]).1;
     Opens(r, answer, id) || (!Closes(r, answer, id) && OpenAfter(s, repoId, rs[..|rs| - 1], id)))
  }

  /** The staging area a POST leaves, by its answer. */
  lemma StartLeaves(s: State, repoId: string, r: Request)
    requires r.Start?
    ensures var (t, answer) := HandleStart(s, repoId, r);
            var filled := AppendTo(Begin(s.staging, r.id), r.id, r.chunk).0;
            if answer == Accepted then t.staging == Begin(s.staging, r.id)
            else if answer == Created then t.staging == filled
            else t.staging == s.staging || t.staging == Drop(filled, r.id)
  {
  }

  lemma BeginAndFill(s: Staging, id: string, chunk: Chunk)
    ensures Begin(s, id).sessions.Keys == s.sessions.Keys + {id}
    ensures AppendTo(Begin(s, id), id, chunk).0.sessions.Keys == s.sessions.Keys + {id}
    ensures Drop(AppendTo(Begin(s, id), id, chunk).0, id).sessions.Keys == s.sessions.Keys - {id}
  {
  }

  lemma StartOpensIff(s: State, repoId: string, r: Request, id: string)
    requires r.Start? && (r.id == id ==> id !in s.staging.sessions)
    ensures var (t, answer) := HandleStart(s, repoId, r);
            id in t.staging.sessions <==> Opens(r, answer, id) || id in s.staging.sessions
  {
    StartLeaves(s, repoId, r);
    BeginAndFill(s.staging, r.id, r.chunk);
  }

  /** The staging area a PUT leaves, by its answer. */
  lemma FinishLeaves(s: State, repoId: string, r: Request)
    requires r.Finish? && r.id in s.staging.sessions
    ensures var (t, answer) := HandleFinish(s, repoId, r);
            var filled := if r.length > 0 then AppendTo(s.staging, r.id, r.chunk).0 else s.staging;
            t.staging == if answer == Created then Drop(filled, r.id) else filled
  {
  }

  lemma FillOrDrop(s: Staging, id: string, chunk: Chunk)
    requires id in s.sessions
    ensures AppendTo(s, id, chunk).0.sessions.Keys == s.sessions.Keys
    ensures Drop(AppendTo(s, id, chunk).0, id).sessions.Keys == s.sessions.Keys - {id}
    ensures Drop(s, id).sessions.Keys == s.sessions.Keys - {id}
  {
  }

  lemma FinishClosesIff(s: State, repoId: string, r: Request, id: string)
    requires r.Finish? && r.id in s.staging.sessions
    ensures var (t, answer) := HandleFinish(s, repoId, r);
            id in t.staging.sessions <==> id in s.staging.sessions && !(r.id == id && answer == Created)
  {
    FinishLeaves(s, repoId, r);
    FillOrDrop(s.staging, r.id, r.chunk);
  }

  lemma SessionRequestClosesIff(s: State, repoId: string, r: Request, id: string)
    requires !r.Start?
    ensures var (t, answer) := Handle(s, repoId, r);
            id in t.staging.sessions <==> id in s.staging.sessions && !Closes(r, answer, id)
  {
    if r.id in s.staging.sessions {
      match r
      case Append(_, chunk) => FillOrDrop(s.staging, r.id, chunk);
      case Finish(_, _, _, _, _, _) => FinishClosesIff(s, repoId, r, id);
      case _ =>
    }
  }

  /**
   For every run, a session is open exactly when a POST answered 202 or 201 opened it and
   since then neither a DELETE nor a PUT answered 201 addressed it. That a POST answered 201
   opens one, too, is what the code does: the session stays behind with the whole blob.
   */
  lemma {:induction false} OpenIff(s: State, repoId: string, rs: seq<Request>, id: string)
    requires s.staging == Staging(map[], map[]) && FreshIds(s, repoId, rs)
    ensures id in After(s, repoId, rs).staging.sessions <==> OpenAfter(s, repoId, rs, id)
  {
    if rs != [] {
      var before, r := After(s, repoId, rs[..|rs| - 1]), rs[|rs| - 1];
      OpenIff(s, repoId, rs[..|rs| - 1], id);
      if r.Start? { StartOpensIff(before, repoId, r, id); } else { SessionRequestClosesIff(before, repoId, r, id); }
    }
  }

  /** A session that is not open stays so until a POST is given its id. */
  lemma {:induction false} StaysClosed(s: State, repoId: string, rs: seq<Request>, id: string, i: nat)
    requires i < |rs| && id !in After(s, repoId, rs[..i + 1]).staging.sessions
    requires forall j :: i < j < |rs| && rs[j].Start? ==> rs[j].id != id
    ensures id !in After(s, repoId, rs).staging.sessions
  {
    var n := |rs| - 1;
    if i == n {
      assert rs[..n + 1] == rs;
    } else {
      assert rs[..n][..i + 1] == rs[..i + 1];
      StaysClosed(s, repoId, rs[..n], id, i);
      var before := After(s, repoId, rs[..n]);
      if rs[n].Start? {
        StartOpensIff(before, repoId, rs[n], id);
      } else {
        SessionRequestClosesIff(before, repoId, rs[n], id);
      }
    }
  }

  /** Every request to a cancelled session is answered 404 and changes nothing. */
  lemma {:induction false} CancelledIsUnknown(s: State, repoId: string, rs: seq<Request>, i: nat, r: Request)
    requires i < |rs| && rs[i].Cancel? && r.id == rs[i].id && !r.Start?
    requires forall j :: i < j < |rs| && rs[j].Start? ==> rs[j].id != r.id
    ensures Handle(After(s, repoId, rs), repoId, r) == (After(s, repoId, rs), Unknown)
  {
    var before := After(s, repoId, rs[..i]);
    assert rs[..i + 1][..i] == rs[..i] && rs[..i + 1][i] == rs[i];
    SessionRequestClosesIff(before, repoId, rs[i], r.id);
    StaysClosed(s, repoId, rs, r.id, i);
  }

  /**
   The answers. Everything but a POST is a 404 exactly when the session is not open. A POST
   without content is a 202 or fails to open; one that carries the whole blob is a 201 if it
   arrived whole, has the claimed digest, and was stored under both rows.
   */
  lemma StartAnswers(s: State, repoId: string, r: Request)
    requires r.Start?
    ensures var answer := Handle(s, repoId, r).1;
            var whole := r.digest != "" && r.length != 0;
            && (answer == Accepted <==> ValidName(r.name) && !r.env.startFails && !whole)
            && (answer == Created <==>
                  && ValidName(r.name) && !r.env.startFails && whole
                  && r.chunk.complete && r.digest == DigestOf(r.chunk.bytes)
                  && !r.env.readFails && CanStore(s.world.objects, r.chunk.bytes, r.env.faults)
                  && r.env.rowOk && r.env.refOk)
            && (answer == Failed <==>
                  ValidName(r.name) && (r.env.startFails || (whole && !r.chunk.complete)))
            && answer != Unknown && answer != NoContent
  {
    PutSucceedsIff(s.world.objects, r.chunk.bytes, r.env.nonce, r.env.faults);
    assert [] + r.chunk.bytes == r.chunk.bytes;
  }

  lemma SessionAnswers(s: State, repoId: string, r: Request)
    requires Consistent(s.staging) && !r.Start?
    ensures var (t, answer) := Handle(s, repoId, r);
            var open := r.id in s.staging.sessions;
            && (answer == Unknown <==> !open)
            && (answer == NoContent <==> open && (r.Status? || r.Cancel?))
            && (answer == Accepted <==> open && r.Append? && r.chunk.complete)
            && (answer == Failed <==>
                  open && !r.Status? && !r.Cancel? && !r.chunk.complete && (r.Finish? ==> r.length > 0))
            && (r.Status? || !open ==> t == s)
            && (!r.Finish? ==> t.world == s.world)
  {
    if r.Finish? && r.id in s.staging.sessions { FinishAnswers(s, repoId, r); }
  }

  lemma FinishAnswers(s: State, repoId: string, r: Request)
    requires Consistent(s.staging) && r.Finish? && r.id in s.staging.sessions
    ensures var answer := HandleFinish(s, repoId, r).1;
            && (answer == Created || answer == BadRequest || answer == Failed)
            && (answer == Failed <==> r.length > 0 && !r.chunk.complete)
  {
  }

  /** A POST answered 201 has stored its content as a PUT would have. */
  lemma WholePostIsStored(s: State, repoId: string, r: Request, u: iset<Bytes>)
    requires Sound(s.world) && r.Start? && Handle(s, repoId, r).1 == Created
    requires CollisionFree(u) && BlobsWithin(s.world.objects, u) && r.chunk.bytes in u
    ensures Holds(Handle(s, repoId, r).0.world, repoId, r.name, r.digest, r.chunk.bytes)
  {
    var filled := AppendTo(Begin(s.staging, r.id), r.id, r.chunk).0;
    assert [] + r.chunk.bytes == r.chunk.bytes;
    FinalizeStores(s.world, repoId, r.name, r.chunk.bytes, r.digest, r.env, u);
  }

  /** A finalize that failed wrote at most the row of the blob itself, and only if it could be written. */
  lemma FailedFinalizeRows(w: World, repoId: string, name: string, bytes: Bytes, claimed: string, env: Env)
    requires !FinalizeReads(w, repoId, name, bytes, bytes, claimed, env).1
    ensures var w' := FinalizeReads(w, repoId, name, bytes, bytes, claimed, env).0;
            || w'.rows == w.rows
            || (env.rowOk && claimed == DigestOf(bytes) &&
                w'.rows == PutRow(w, true, env.stamp, repoId, BlobPath(claimed), claimed, |bytes|, OCTETS).rows)
  {
  }

  lemma RefusedStart(s: State, repoId: string, r: Request) returns (bytes: Bytes)
    requires r.Start? && HandleStart(s, repoId, r).1 != Created
    ensures var w := HandleStart(s, repoId, r).0.world;
            w == s.world || FinalizeReads(s.world, repoId, r.name, bytes, bytes, r.digest, r.env) == (w, false)
  {
    bytes := AppendTo(Begin(s.staging, r.id), r.id, r.chunk).0.files[r.id];
  }

  lemma RefusedFinish(s: State, repoId: string, r: Request) returns (bytes: Bytes)
    requires r.Finish? && r.id in s.staging.sessions && HandleFinish(s, repoId, r).1 != Created
    ensures var w := HandleFinish(s, repoId, r).0.world;
            w == s.world || FinalizeReads(s.world, repoId, r.name, bytes, bytes, r.digest, r.env) == (w, false)
  {
    var filled := if r.length > 0 then AppendTo(s.staging, r.id, r.chunk).0 else s.staging;
    bytes := if r.id in filled.files then filled.files[r.id] else [];
  }

  /** A request that was not answered 201 wrote at most the row of the blob itself. */
  lemma RefusedWritesNoReference(s: State, repoId: string, r: Request, k: (string, string))
    requires (r.Start? || r.Finish?) && Handle(s, repoId, r).1 != Created
    requires k != (repoId, BlobPath(r.digest)) || !r.env.rowOk
    ensures var rows := Handle(s, repoId, r).0.world.rows;
            (k in rows <==> k in s.world.rows) && (k in rows ==> rows[k] == s.world.rows[k])
  {
    if r.Start? || r.id in s.staging.sessions {
      var bytes;
      if r.Start? { bytes := RefusedStart(s, repoId, r); } else { bytes := RefusedFinish(s, repoId, r); }
      if Handle(s, repoId, r).0.world != s.world {
        FailedFinalizeRows(s.world, repoId, r.name, bytes, r.digest, r.env);
      }
    }
  }

  /** A request answered 201 has finalized some bytes. */
  lemma CreatedFinalizes(s: State, repoId: string, r: Request) returns (bytes: Bytes)
    requires (r.Start? || r.Finish?) && Handle(s, repoId, r).1 == Created
    ensures FinalizeReads(s.world, repoId, r.name, bytes, bytes, r.digest, r.env) ==
            (Handle(s, repoId, r).0.world, true)
  {
    if r.Start? {
      bytes := AppendTo(Begin(s.staging, r.id), r.id, r.chunk).0.files[r.id];
    } else {
      bytes := CreatedFinish(s, repoId, r);
    }
  }

  lemma CreatedFinish(s: State, repoId: string, r: Request) returns (bytes: Bytes)
    requires r.Finish? && r.id in s.staging.sessions && HandleFinish(s, repoId, r).1 == Created
    ensures FinalizeReads(s.world, repoId, r.name, bytes, bytes, r.digest, r.env) ==
            (HandleFinish(s, repoId, r).0.world, true)
  {
    bytes := (if r.length > 0 then AppendTo(s.staging, r.id, r.chunk).0 else s.staging).files[r.id];
  }

  /** A finalize that succeeded has written the two rows of the blob and no others. */
  lemma FinalizedRows(w: World, repoId: string, name: string, bytes: Bytes, claimed: string, env: Env,
                      k: (string, string))
    requires FinalizeReads(w, repoId, name, bytes, bytes, claimed, env).1
    ensures claimed == DigestOf(bytes) && |claimed| == 71
    ensures var rows := FinalizeReads(w, repoId, name, bytes, bytes, claimed, env).0.rows;
            var written := {(repoId, BlobPath(claimed)), (repoId, RefPath(name, claimed))};
            && (k in rows <==> k in w.rows || k in written)
            && (k in w.rows && k !in written ==> rows[k] == w.rows[k])
  {
  }
}
