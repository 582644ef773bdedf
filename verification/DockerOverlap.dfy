/**
 Upload requests that overlap. One PUT hashes the staged file, reads it again for the
 blob store and then writes two rows; a PATCH, or the last chunk of another PUT, can
 come between any two of these steps, and so can a DELETE.
 */
module DockerOverlap {
  import opened Sequences
  import opened Storage
  import opened Cas
  import opened Registry
  import DockerUpload
  import UploadGcProtocol
  import UploadGcAlone

  /** How far a PUT has got. `digest` is the claimed one, which the hash has confirmed. */
  datatype Phase =
    | Hashed(id: string, name: string, digest: string, size: nat)
    | Stored(id: string, name: string, digest: string, size: nat)
    | Recorded(id: string, name: string, digest: string, size: nat)

  datatype State = State(repoId: string, files: map<string, Bytes>, puts: map<nat, Phase>, world: World)

  datatype Step =
    | Open(id: string)
    | Append(id: string, bytes: Bytes)
    | Hash(u: nat, id: string, name: string, claimed: string)
    | Store(u: nat, nonce: string, faults: PutFaults)
    | Record(u: nat, ok: bool, stamp: Stamp)
    | RecordRef(u: nat, ok: bool, stamp: Stamp)
    | Fail(u: nat)
    | Drop(id: string)

  predicate Enabled(s: State, step: Step) {
    match step
    // Session ids are never drawn twice.
    case Open(id) => id !in s.files && forall u :: u in s.puts ==> s.puts[u].id != id
    case Append(id, _) => id in s.files
    case Hash(u, id, _, _) => u !in s.puts && id in s.files
    case Store(u, _, _) => u in s.puts && s.puts[u].Hashed? && s.puts[u].id in s.files
    case Record(u, _, _) => u in s.puts && s.puts[u].Stored?
    case RecordRef(u, _, _) => u in s.puts && s.puts[u].Recorded?
    case Fail(u) => u in s.puts
    case Drop(_) => true
  }

  function Apply(s: State, step: Step): State
    requires Enabled(s, step)
  {
    match step
    case Open(id) => s.(files := s.files[id := []])
    case Append(id, bytes) => s.(files := s.files[id := s.files[id] + bytes])
    // A claim that the hash does not confirm ends the request.
    case Hash(u, id, name, claimed) =>
      if DigestOf(s.files[id]) != claimed then s
      else s.(puts := s.puts[u := Hashed(id, name, claimed, |s.files[id]|)])
    case Store(u, nonce, faults) =>
      var p := s.puts[u];
      var (w, r) := PutBlob(s.world, s.files[p.id], nonce, faults);
      s.(puts := if r.Ok? then s.puts[u := Stored(p.id, p.name, p.digest, p.size)] else s.puts - {u}, world := w)
    case Record(u, ok, stamp) =>
      var p := s.puts[u];
      s.(puts := if ok then s.puts[u := Recorded(p.id, p.name, p.digest, p.size)] else s.puts - {u},
         world := RowWritten(s, DockerUpload.BlobPath(p.digest), p, ok, stamp))
    case RecordRef(u, ok, stamp) =>
      var p := s.puts[u];
      s.(puts := s.puts - {u}, world := RowWritten(s, DockerUpload.RefPath(p.name, p.digest), p, ok, stamp))
    case Fail(u) => s.(puts := s.puts - {u})
    case Drop(id) => s.(files := s.files - {id})
  }

  function RowWritten(s: State, path: string, p: Phase, ok: bool, stamp: Stamp): World {
    PutRow(s.world, ok, stamp, s.repoId, path, p.digest, p.size, OCTETS)
  }

  // ---------------------------------------------------------------- safety

  /** Every row has its blob, and so has every PUT that still has a row to write. */
  ghost predicate Safe(s: State) {
    Sound(s.world) && forall u :: u in s.puts && !s.puts[u].Hashed? ==> HasBlob(s.world.objects, s.puts[u].digest)
  }

  /** What is stored is not what was hashed, and what was hashed is not in the store either. */
  predicate Late(s: State, step: Step) {
    && step.Store? && Enabled(s, step)
    && PutBlob(s.world, s.files[s.puts[step.u].id], step.nonce, step.faults).1.Ok?
    && DigestOf(s.files[s.puts[step.u].id]) != s.puts[step.u].digest
    && !HasBlob(s.world.objects, s.puts[step.u].digest)
  }

  lemma BlobsAfterPut(w: World, body: Bytes, nonce: string, faults: PutFaults, d: string)
    requires Sound(w)
    ensures var (w', r) := PutBlob(w, body, nonce, faults);
            && Sound(w')
            && (forall e :: HasBlob(w.objects, e) ==> HasBlob(w'.objects, e))
            && (r.Ok? ==> (HasBlob(w'.objects, d) <==> HasBlob(w.objects, d) || d == DigestOf(body)))
  {
    PutBlobSound(w, body, nonce, faults);
    PutKeepsBlobs(w.objects, body, nonce, faults);
    DigestIsValid(body);
  }

  lemma StoreSafeIff(s: State, step: Step)
    requires Safe(s) && Enabled(s, step) && step.Store?
    ensures Safe(Apply(s, step)) <==> !Late(s, step)
  {
    var p, s' := s.puts[step.u], Apply(s, step);
    BlobsAfterPut(s.world, s.files[p.id], step.nonce, step.faults, p.digest);
    if PutBlob(s.world, s.files[p.id], step.nonce, step.faults).1.Ok? {
      assert step.u in s'.puts && s'.puts[step.u].digest == p.digest;
      assert forall u :: u in s'.puts && u != step.u ==> u in s.puts && s'.puts[u] == s.puts[u];
    }
  }

  lemma RecordSafe(s: State, step: Step)
    requires Safe(s) && Enabled(s, step) && (step.Record? || step.RecordRef?)
    ensures Safe(Apply(s, step))
  {
    var p := s.puts[step.u];
    var path := if step.Record? then DockerUpload.BlobPath(p.digest) else DockerUpload.RefPath(p.name, p.digest);
    PutRowSoundIff(s.world, step.ok, step.stamp, s.repoId, path, p.digest, p.size, OCTETS);
  }

  /** From a safe state, a step leads to a safe state exactly when it does not store something else than was hashed. */
  lemma StepSafeIff(s: State, step: Step)
    requires Safe(s) && Enabled(s, step)
    ensures Safe(Apply(s, step)) <==> !Late(s, step)
  {
    match step
    case Store(_, _, _) => StoreSafeIff(s, step);
    case Record(_, _, _) => RecordSafe(s, step);
    case RecordRef(_, _, _) => RecordSafe(s, step);
    case _ =>
  }

  // ---------------------------------------------------------------- whole runs

  predicate Runs(s: State, steps: seq<Step>)
    decreases |steps|
  {
    steps == [] || (Enabled(s, steps[0]) && Runs(Apply(s, steps[0]), steps[1..]))
  }

  function After(s: State, steps: seq<Step>): State
    requires Runs(s, steps)
    decreases |steps|
  {
    if steps == [] then s else After(Apply(s, steps[0]), steps[1..])
  }

  ghost predicate AlwaysSafe(s: State, steps: seq<Step>)
    requires Runs(s, steps)
    decreases |steps|
  {
    Safe(s) && (steps == [] || AlwaysSafe(Apply(s, steps[0]), steps[1..]))
  }

  predicate LateFree(s: State, steps: seq<Step>)
    requires Runs(s, steps)
    decreases |steps|
  {
    steps == [] || (!Late(s, steps[0]) && LateFree(Apply(s, steps[0]), steps[1..]))
  }

  /**
   Over every interleaving, the stores agree throughout if and only if no PUT stores
   something else than it hashed.
   */
  lemma {:induction false} RunSafeIffLateFree(s: State, steps: seq<Step>)
    requires Safe(s) && Runs(s, steps)
    ensures AlwaysSafe(s, steps) <==> LateFree(s, steps)
    decreases |steps|
  {
    if steps != [] {
      StepSafeIff(s, steps[0]);
      if Safe(Apply(s, steps[0])) { RunSafeIffLateFree(Apply(s, steps[0]), steps[1..]); }
    }
  }

  lemma {:induction false} LateFreeRunIsSafe(s: State, steps: seq<Step>)
    requires Safe(s) && Runs(s, steps) && LateFree(s, steps)
    ensures Safe(After(s, steps))
    decreases |steps|
  {
    if steps != [] {
      StepSafeIff(s, steps[0]);
      LateFreeRunIsSafe(Apply(s, steps[0]), steps[1..]);
    }
  }

  /** The requests under way write their rows, and nothing else happens. */
  predicate AllRecording(steps: seq<Step>) {
    forall i :: 0 <= i < |steps| ==> steps[i].Record? || steps[i].RecordRef?
  }

  ghost predicate CanDangle(s: State) {
    exists steps :: Runs(s, steps) && AllRecording(steps) && !Sound(After(s, steps).world)
  }

  lemma {:induction false} RecordingIsLateFree(s: State, steps: seq<Step>)
    requires Runs(s, steps) && AllRecording(steps)
    ensures LateFree(s, steps)
    decreases |steps|
  {
    if steps != [] {
      assert forall i :: 0 <= i < |steps| - 1 ==> steps[1..][i] == steps[i + 1];
      RecordingIsLateFree(Apply(s, steps[0]), steps[1..]);
    }
  }

  lemma {:induction false} RunCons(s: State, step: Step, rest: seq<Step>)
    requires Enabled(s, step) && Runs(Apply(s, step), rest)
    ensures Runs(s, [step] + rest) && After(s, [step] + rest) == After(Apply(s, step), rest)
  {
    Joins([step], rest);
  }

  lemma {:induction false} SafeCannotDangle(s: State, steps: seq<Step>)
    requires Safe(s) && Runs(s, steps) && AllRecording(steps)
    ensures Sound(After(s, steps).world)
  {
    RecordingIsLateFree(s, steps);
    LateFreeRunIsSafe(s, steps);
  }

  /** A request that may write a row without its blob does so in its next step. */
  lemma {:induction false} UnsafePutDangles(s: State, u: nat)
    requires Sound(s.world) && u in s.puts && !s.puts[u].Hashed? && !HasBlob(s.world.objects, s.puts[u].digest)
    ensures CanDangle(s)
  {
    var step := if s.puts[u].Stored? then Record(u, true, Stamp("", 0)) else RecordRef(u, true, Stamp("", 0));
    RowDangles(s, step);
    RunCons(s, step, []);
    assert AllRecording([step] + []);
  }

  /** Safety is exactly what keeps the rows of the requests under way from pointing nowhere. */
  lemma {:induction false} SafeIffCannotDangle(s: State)
    ensures Safe(s) <==> !CanDangle(s)
  {
    if Safe(s) {
      forall steps | Runs(s, steps) && AllRecording(steps) ensures Sound(After(s, steps).world) {
        SafeCannotDangle(s, steps);
      }
    } else if Sound(s.world) {
      var u :| u in s.puts && !s.puts[u].Hashed? && !HasBlob(s.world.objects, s.puts[u].digest);
      UnsafePutDangles(s, u);
    } else {
      assert Runs(s, []) && AllRecording([]);
    }
  }

  lemma RowDangles(s: State, step: Step)
    requires Sound(s.world) && Enabled(s, step) && (step.Record? || step.RecordRef?) && step.ok
    requires !HasBlob(s.world.objects, s.puts[step.u].digest)
    ensures !Sound(Apply(s, step).world)
  {
    var p := s.puts[step.u];
    var path := if step.Record? then DockerUpload.BlobPath(p.digest) else DockerUpload.RefPath(p.name, p.digest);
    PutRowSoundIff(s.world, true, step.stamp, s.repoId, path, p.digest, p.size, OCTETS);
  }

  // ---------------------------------------------------------------- not overlapping

  /** What was hashed is still what is staged. */
  predicate Current(s: State) {
    forall u :: u in s.puts && s.puts[u].Hashed? && s.puts[u].id in s.files ==>
      DigestOf(s.files[s.puts[u].id]) == s.puts[u].digest
  }

  /** The step appends to a file that a PUT has hashed and not yet stored. */
  predicate Intrudes(s: State, step: Step) {
    step.Append? && exists u :: u in s.puts && s.puts[u].Hashed? && s.puts[u].id == step.id
  }

  predicate KeptApart(s: State, steps: seq<Step>)
    requires Runs(s, steps)
    decreases |steps|
  {
    steps == [] || (!Intrudes(s, steps[0]) && KeptApart(Apply(s, steps[0]), steps[1..]))
  }

  /** Without an append between hash and store, nothing is stored late, so the stores agree throughout. */
  lemma {:induction false} KeptApartIsSafe(s: State, steps: seq<Step>)
    requires Safe(s) && Current(s) && Runs(s, steps) && KeptApart(s, steps)
    ensures LateFree(s, steps) && AlwaysSafe(s, steps)
    decreases |steps|
  {
    if steps != [] {
      StepSafeIff(s, steps[0]);
      KeptApartIsSafe(Apply(s, steps[0]), steps[1..]);
    }
  }

  /**
   An append in between matters exactly when it changes the digest and nobody has stored
   the hashed bytes: then the request goes on to write a row that points nowhere.
   */
  lemma IntrusionDanglesIff(s: State, u: nat, bytes: Bytes, nonce: string)
    requires Safe(s) && Current(s) && u in s.puts && s.puts[u].Hashed? && s.puts[u].id in s.files
    ensures var append, store := Append(s.puts[u].id, bytes), Store(u, nonce, NO_FAULTS);
            var s1 := Apply(s, append);
            && Enabled(s, append) && Enabled(s1, store)
            && (CanDangle(Apply(s1, store)) <==>
                  DigestOf(s.files[s.puts[u].id] + bytes) != s.puts[u].digest
                  && !HasBlob(s.world.objects, s.puts[u].digest))
  {
    var append, store := Append(s.puts[u].id, bytes), Store(u, nonce, NO_FAULTS);
    var s1 := Apply(s, append);
    StepSafeIff(s, append);
    StepSafeIff(s1, store);
    SafeIffCannotDangle(Apply(s1, store));
  }

  /** The steps of one PUT, each where the one before has worked. */
  function Alone(s: State, u: nat, id: string, name: string, claimed: string, env: DockerUpload.Env): seq<Step>
    requires id in s.files
  {
    [Hash(u, id, name, claimed)] +
    if DigestOf(s.files[id]) != claimed then []
    else if env.readFails then [Fail(u)] else
    [Store(u, env.nonce, env.faults)] +
    if PutBlob(s.world, s.files[id], env.nonce, env.faults).1.Ok? then RecordSteps(u, env) else []
  }

  function RecordSteps(u: nat, env: DockerUpload.Env): seq<Step> {
    [Record(u, env.rowOk, env.stamp)] + if env.rowOk then [RecordRef(u, env.refOk, env.refStamp)] else []
  }

  lemma {:induction false} RecordRuns(s: State, u: nat, env: DockerUpload.Env)
    requires u in s.puts && s.puts[u].Stored?
    ensures var p, steps := s.puts[u], RecordSteps(u, env);
            var w := RowWritten(s, DockerUpload.BlobPath(p.digest), p, env.rowOk, env.stamp);
            && Runs(s, steps)
            && After(s, steps) == s.(puts := s.puts - {u}, world := if env.rowOk
                 then RowWritten(s.(world := w), DockerUpload.RefPath(p.name, p.digest), p, env.refOk, env.refStamp)
                 else w)
  {
    var record, ref := Record(u, env.rowOk, env.stamp), RecordRef(u, env.refOk, env.refStamp);
    var s1 := Apply(s, record);
    if env.rowOk {
      assert s1.puts - {u} == s.puts - {u};
      RunCons(s1, ref, []);
      RunCons(s, record, [ref] + []);
      assert [ref] + [] == [ref];
    } else {
      RunCons(s, record, []);
    }
  }

  /** Storing and recording what was hashed. */
  lemma {:induction false} StoreRuns(s: State, u: nat, env: DockerUpload.Env)
    requires u in s.puts && s.puts[u].Hashed? && s.puts[u].id in s.files && !env.readFails
    requires s.puts[u].digest == DigestOf(s.files[s.puts[u].id]) && s.puts[u].size == |s.files[s.puts[u].id]|
    ensures var p, bytes := s.puts[u], s.files[s.puts[u].id];
            var steps := [Store(u, env.nonce, env.faults)] +
              if PutBlob(s.world, bytes, env.nonce, env.faults).1.Ok? then RecordSteps(u, env) else [];
            && Runs(s, steps)
            && After(s, steps) == s.(puts := s.puts - {u}, world :=
                 DockerUpload.FinalizeReads(s.world, s.repoId, p.name, bytes, bytes, p.digest, env).0)
  {
    var store, bytes := Store(u, env.nonce, env.faults), s.files[s.puts[u].id];
    var s2 := Apply(s, store);
    if PutBlob(s.world, bytes, env.nonce, env.faults).1.Ok? {
      RecordRuns(s2, u, env);
      assert s2.puts - {u} == s.puts - {u};
      RunCons(s, store, RecordSteps(u, env));
    } else {
      RunCons(s, store, []);
    }
  }

  /** A PUT whose steps follow one another does what the sequential finalize does, whatever is claimed and fails. */
  lemma {:induction false} AloneIsFinalize(s: State, u: nat, id: string, name: string, claimed: string,
                                           env: DockerUpload.Env)
    requires u !in s.puts && id in s.files
    ensures var steps, bytes := Alone(s, u, id, name, claimed, env), s.files[id];
            var (w, ok) := DockerUpload.FinalizeReads(s.world, s.repoId, name, bytes, bytes, claimed, env);
            && Runs(s, steps) && After(s, steps) == s.(world := w)
            && (ok <==> |steps| == 4 && env.refOk)
  {
    var hash, fail := Hash(u, id, name, claimed), Fail(u);
    var s1 := Apply(s, hash);
    assert s1.puts - {u} == s.puts;
    if DigestOf(s.files[id]) != claimed {
      RunCons(s, hash, []);
    } else if env.readFails {
      RunCons(s1, fail, []);
      assert [fail] + [] == [fail];
      RunCons(s, hash, [fail]);
    } else {
      StoreRuns(s1, u, env);
      RunCons(s, hash, Alone(s, u, id, name, claimed, env)[1..]);
    }
  }

  // ---------------------------------------------------------------- beside a collection

  ghost function RowDigests(w: World): map<(string, string), string> {
    map k | k in w.rows :: w.rows[k].digest
  }

  /**
   In the protocol of uploads and collections, storing is an upload that claims what was
   hashed and reads what is staged by now.
   */
  lemma StoreIsUpload(s: State, step: Step, t: UploadGcProtocol.State)
    requires step.Store? && Enabled(s, step) && t.objects == s.world.objects
    requires var f := step.faults; !f.temp && !f.open && !f.final
    requires var p := s.puts[step.u];
             UploadGcProtocol.Enabled(t, UploadGcProtocol.StartPut(step.u, s.files[p.id], p.digest, step.nonce))
    ensures var p, body := s.puts[step.u], s.files[s.puts[step.u].id];
            var steps := UploadGcAlone.UploadSteps(t, step.u, body, p.digest, step.nonce, step.faults.stat,
                                                   step.faults.drop);
            && UploadGcProtocol.Runs(t, steps)
            && UploadGcProtocol.After(t, steps) ==
               UploadGcAlone.With(t, Apply(s, step).world.objects, step.u,
                                  UploadGcProtocol.Returned(body, p.digest, UploadGcProtocol.ReceiptFor(body)))
  {
    var p := s.puts[step.u];
    UploadGcAlone.UploadAloneIsPut(t, step.u, s.files[p.id], p.digest, step.nonce, step.faults.stat, step.faults.drop);
  }

  /** And writing either row is the protocol's writing of a row. */
  lemma RecordIsWriteRow(s: State, step: Step, t: UploadGcProtocol.State)
    requires (step.Record? || step.RecordRef?) && Enabled(s, step) && step.ok
    requires t.rows == RowDigests(s.world)
    requires step.u in t.uploads && t.uploads[step.u].Returned? && t.uploads[step.u].claim == s.puts[step.u].digest
    ensures UploadGcProtocol.Apply(t, UploadGcProtocol.WriteRow(step.u, s.repoId, RowPath(s, step))).rows ==
            RowDigests(Apply(s, step).world)
  {
    var p := s.puts[step.u];
    RowDigestsAfter(s, RowPath(s, step), p, step.stamp);
    RecordWorld(s, step);
    WriteRowRows(t, step.u, s.repoId, RowPath(s, step));
  }

  function RowPath(s: State, step: Step): string
    requires (step.Record? || step.RecordRef?) && Enabled(s, step)
  {
    var p := s.puts[step.u];
    if step.Record? then DockerUpload.BlobPath(p.digest) else DockerUpload.RefPath(p.name, p.digest)
  }

  lemma RecordWorld(s: State, step: Step)
    requires (step.Record? || step.RecordRef?) && Enabled(s, step) && step.ok
    ensures Apply(s, step).world == RowWritten(s, RowPath(s, step), s.puts[step.u], true, step.stamp)
  {
  }

  lemma WriteRowRows(t: UploadGcProtocol.State, u: nat, repoId: string, path: string)
    requires u in t.uploads && t.uploads[u].Returned?
    ensures UploadGcProtocol.Apply(t, UploadGcProtocol.WriteRow(u, repoId, path)).rows ==
            t.rows[(repoId, path) := t.uploads[u].claim]
  {
  }

  lemma RowDigestsAfter(s: State, path: string, p: Phase, stamp: Stamp)
    ensures RowDigests(RowWritten(s, path, p, true, stamp)) == RowDigests(s.world)[(s.repoId, path) := p.digest]
  {
  }
}
