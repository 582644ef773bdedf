/**
 Uploads and the collector running at the same time. One step is one backend call,
 one SQL statement or one directory listing; any interleaving of steps is a run.
 The same backend `Put` that a single upload sees as atomic is one step here.
 */
module UploadGcProtocol {
  import opened Sequences
  import opened Order
  import opened Storage
  import opened Cas
  import Gc

  /**
   Where one `CAS.Put`, and the adapter that called it, has got to. `body` is what the reader
   delivered, and `claim` is the digest that the adapter's rows will name. Most adapters take
   it from the receipt. A docker PUT has hashed the staged file before, and reads it again
   for the put; a docker proxy takes what the upstream says of a manifest.
   */
  datatype Phase =
    | Staged(body: Bytes, claim: string, nonce: string)
    | Missed(body: Bytes, claim: string, nonce: string)
    | Opened(body: Bytes, claim: string, nonce: string, bytes: Bytes)
    | Stored(body: Bytes, claim: string, nonce: string, receipt: Receipt)
    | Returned(body: Bytes, claim: string, receipt: Receipt)

  datatype Collector =
    | Idle
    | Listing(refs: set<string>, token: string)
    | Sweeping(refs: set<string>, pending: seq<string>, next: string)

  datatype State = State(objects: Objects, rows: map<(string, string), string>,
                         uploads: map<nat, Phase>, gc: Collector)

  datatype Step =
    | StartPut(u: nat, body: Bytes, claim: string, nonce: string)
    | StatHit(u: nat)
    | StatMiss(u: nat)
    | OpenTemp(u: nat)
    | WriteFinal(u: nat)
    | DropTemp(u: nat, ok: bool)
    | WriteRow(u: nat, repoId: string, path: string)
    | EndUpload(u: nat)
    | DeleteRow(repoId: string, path: string)
    | DeleteBlob(digest: string)
    | GcSnapshot
    | GcList
    | GcVisit(ok: bool)
    | GcNext
    | GcAbort

  predicate HoldsTemp(p: Phase, nonce: string) {
    !p.Returned? && p.nonce == nonce
  }

  ghost predicate Enabled(s: State, step: Step) {
    match step
    case StartPut(u, body, claim, nonce) =>
      && u !in s.uploads && LowerHex(nonce, 32)
      && TempKey(nonce) !in s.objects
      && (forall v :: v in s.uploads ==> !HoldsTemp(s.uploads[v], nonce))
    case StatHit(u) => u in s.uploads && s.uploads[u].Staged? && KeyFor(DigestOf(s.uploads[u].body)) in s.objects
    // A failing stat is taken for a miss.
    case StatMiss(u) => u in s.uploads && s.uploads[u].Staged?
    case OpenTemp(u) => u in s.uploads && s.uploads[u].Missed? && TempKey(s.uploads[u].nonce) in s.objects
    case WriteFinal(u) => u in s.uploads && s.uploads[u].Opened?
    case DropTemp(u, _) => u in s.uploads && s.uploads[u].Stored?
    case WriteRow(u, _, _) => u in s.uploads && s.uploads[u].Returned?
    // Finished, failed or crashed, at any point.
    case EndUpload(u) => u in s.uploads
    case DeleteRow(_, _) => true
    case DeleteBlob(d) => ValidDigest(d)
    case GcSnapshot => s.gc.Idle?
    case GcList => s.gc.Listing?
    case GcVisit(_) => s.gc.Sweeping? && s.gc.pending != []
    case GcNext => s.gc.Sweeping? && s.gc.pending == []
    case GcAbort => !s.gc.Idle?
  }

  function ReceiptFor(body: Bytes): Receipt {
    Receipt(DigestOf(body), |body|)
  }

  ghost function RowDigests(s: State): set<string> {
    set k | k in s.rows :: s.rows[k]
  }

  predicate OfCollector(step: Step) {
    step.GcSnapshot? || step.GcList? || step.GcVisit? || step.GcNext? || step.GcAbort?
  }

  ghost function Apply(s: State, step: Step): State
    requires Enabled(s, step)
  {
    if OfCollector(step) then ApplyCollector(s, step) else ApplyUpload(s, step)
  }

  ghost function ApplyUpload(s: State, step: Step): State
    requires Enabled(s, step) && !OfCollector(step)
  {
    match step
    case StartPut(u, body, claim, nonce) =>
      s.(objects := s.objects[TempKey(nonce) := body], uploads := s.uploads[u := Staged(body, claim, nonce)])
    case StatHit(u) =>
      var p := s.uploads[u];
      s.(uploads := s.uploads[u := Stored(p.body, p.claim, p.nonce, ReceiptFor(p.body))])
    case StatMiss(u) =>
      var p := s.uploads[u];
      s.(uploads := s.uploads[u := Missed(p.body, p.claim, p.nonce)])
    case OpenTemp(u) =>
      var p := s.uploads[u];
      s.(uploads := s.uploads[u := Opened(p.body, p.claim, p.nonce, s.objects[TempKey(p.nonce)])])
    case WriteFinal(u) =>
      var p := s.uploads[u];
      s.(objects := s.objects[KeyFor(DigestOf(p.body)) := p.bytes],
         uploads := s.uploads[u := Stored(p.body, p.claim, p.nonce, ReceiptFor(p.body))])
    case DropTemp(u, ok) =>
      var p := s.uploads[u];
      s.(objects := if ok then s.objects - {TempKey(p.nonce)} else s.objects,
         uploads := s.uploads[u := Returned(p.body, p.claim, p.receipt)])
    case WriteRow(u, repoId, path) =>
      s.(rows := s.rows[(repoId, path) := s.uploads[u].claim])
    case EndUpload(u) => s.(uploads := s.uploads - {u})
    case DeleteRow(repoId, path) => s.(rows := s.rows - {(repoId, path)})
    case DeleteBlob(d) => s.(objects := s.objects - {KeyFor(d)})
  }

  ghost function ApplyCollector(s: State, step: Step): State
    requires Enabled(s, step) && OfCollector(step)
  {
    match step
    case GcSnapshot => s.(gc := Listing(RowDigests(s), ""))
    case GcList =>
      var p := PageOf(Listed(s.objects, Gc.ROOT), s.gc.token, 1000);
      s.(gc := Sweeping(s.gc.refs, p.keys, p.next))
    case GcVisit(ok) =>
      var key := s.gc.pending[0];
      s.(objects := if Gc.Orphan(s.gc.refs, key) && ok then s.objects - {key} else s.objects,
         gc := s.gc.(pending := s.gc.pending[1..]))
    case GcNext => s.(gc := if s.gc.next == "" then Idle else Listing(s.gc.refs, s.gc.next))
    case GcAbort => s.(gc := Idle)
  }

  // ---------------------------------------------------------------- invariant

  ghost predicate PhaseOk(objects: Objects, p: Phase) {
    && (p.Staged? || p.Missed? ==> TempKey(p.nonce) in objects && objects[TempKey(p.nonce)] == p.body)
    && (p.Opened? ==> p.bytes == p.body)
    && (p.Stored? || p.Returned? ==> p.receipt == ReceiptFor(p.body))
    && (!p.Returned? ==> LowerHex(p.nonce, 32))
  }

  /** Holds in every state of every run. */
  ghost predicate Inv(s: State) {
    && "" !in s.objects
    && Intact(s.objects)
    && (forall u :: u in s.uploads ==> PhaseOk(s.objects, s.uploads[u]))
    && NoncesApart(s.uploads)
  }

  predicate NoncesApart(uploads: map<nat, Phase>) {
    forall u, v :: u in uploads && v in uploads && u != v && !uploads[u].Returned? ==>
      !HoldsTemp(uploads[v], uploads[u].nonce)
  }

  lemma FreshNonceApart(uploads: map<nat, Phase>, u: nat, p: Phase)
    requires NoncesApart(uploads) && !p.Returned?
    requires forall v :: v in uploads ==> !HoldsTemp(uploads[v], p.nonce)
    ensures NoncesApart(uploads[u := p])
  {
  }

  lemma StagingKeepsIntact(objects: Objects, nonce: string, body: Bytes)
    requires Intact(objects)
    ensures Intact(objects[TempKey(nonce) := body])
  {
    forall d | ValidDigest(d) ensures KeyFor(d) != TempKey(nonce) { StagingIsNotABlob(d, nonce); }
  }

  lemma TempNotOrphan(refs: set<string>, nonce: string)
    requires LowerHex(nonce, 32)
    ensures !Gc.Orphan(refs, TempKey(nonce))
  {
    var o: Objects := map[TempKey(nonce) := []];
    Gc.StagedSurvives(o, refs, nonce);
    Gc.Survivors(o, refs, TempKey(nonce));
    InRoot(nonce);
  }

  lemma InRoot(nonce: string)
    ensures InDir(Gc.ROOT, TempKey(nonce))
  {
    assert TempKey(nonce)[..6] == Gc.ROOT;
    Gc.BlobsPrefix(TempKey(nonce));
  }

  lemma TempKeyInjective(a: string, b: string)
    requires TempKey(a) == TempKey(b)
    ensures a == b
  {
    assert TempKey(a)[|STAGING|..] == a && TempKey(b)[|STAGING|..] == b;
  }

  /** Removing an object keeps the store intact, and staged uploads too if no upload stages under it. */
  lemma RemovalKeepsInv(s: State, key: string, s': State)
    requires Inv(s) && s'.objects == s.objects - {key} && s'.uploads == s.uploads
    requires forall u :: u in s.uploads && (s.uploads[u].Staged? || s.uploads[u].Missed?) ==>
               key != TempKey(s.uploads[u].nonce)
    ensures Inv(s')
  {
  }

  lemma InvDropTemp(s: State, u: nat, ok: bool)
    requires Inv(s) && Enabled(s, DropTemp(u, ok))
    ensures Inv(Apply(s, DropTemp(u, ok)))
  {
    var nonce := s.uploads[u].nonce;
    var s' := Apply(s, DropTemp(u, ok));
    forall v | v in s.uploads && v != u && (s.uploads[v].Staged? || s.uploads[v].Missed?)
      ensures TempKey(s.uploads[v].nonce) != TempKey(nonce)
    {
      if TempKey(s.uploads[v].nonce) == TempKey(nonce) { TempKeyInjective(s.uploads[v].nonce, nonce); }
    }
    forall v | v in s'.uploads ensures PhaseOk(s'.objects, s'.uploads[v]) {
      assert PhaseOk(s.objects, s.uploads[v]);
    }
  }

  lemma InvStartPut(s: State, u: nat, body: Bytes, claim: string, nonce: string)
    requires Inv(s) && Enabled(s, StartPut(u, body, claim, nonce))
    ensures Inv(Apply(s, StartPut(u, body, claim, nonce)))
  {
    var s' := Apply(s, StartPut(u, body, claim, nonce));
    StagingKeepsIntact(s.objects, nonce, body);
    FreshNonceApart(s.uploads, u, Staged(body, claim, nonce));
    forall v | v in s'.uploads ensures PhaseOk(s'.objects, s'.uploads[v]) {
      if v in s.uploads { assert PhaseOk(s.objects, s.uploads[v]); }
    }
  }

  /** Storing `body` under its own digest keeps the store intact. */
  lemma StoringKeepsIntact(objects: Objects, body: Bytes)
    requires Intact(objects)
    ensures Intact(objects[KeyFor(DigestOf(body)) := body])
  {
    DigestIsValid(body);
    forall d | ValidDigest(d) && KeyFor(d) == KeyFor(DigestOf(body)) ensures d == DigestOf(body) {
      KeyForInjective(d, DigestOf(body));
    }
  }

  lemma InvWriteFinal(s: State, u: nat)
    requires Inv(s) && Enabled(s, WriteFinal(u))
    ensures Inv(Apply(s, WriteFinal(u)))
  {
    var s' := Apply(s, WriteFinal(u));
    var body := s.uploads[u].body;
    assert PhaseOk(s.objects, s.uploads[u]);
    StoringKeepsIntact(s.objects, body);
    DigestIsValid(body);
    forall v | v in s'.uploads ensures PhaseOk(s'.objects, s'.uploads[v]) {
      assert PhaseOk(s.objects, s.uploads[v]);
      if !s.uploads[v].Returned? { StagingIsNotABlob(DigestOf(body), s.uploads[v].nonce); }
    }
  }

  lemma InvPhaseMoves(s: State, step: Step)
    requires Inv(s) && Enabled(s, step) && (step.StatHit? || step.StatMiss? || step.OpenTemp?)
    ensures Inv(Apply(s, step))
  {
    var s' := Apply(s, step);
    assert PhaseOk(s.objects, s.uploads[step.u]);
    forall v | v in s'.uploads ensures PhaseOk(s'.objects, s'.uploads[v]) {
      assert PhaseOk(s.objects, s.uploads[v]);
    }
  }

  lemma InvDeleteBlob(s: State, d: string)
    requires Inv(s) && Enabled(s, DeleteBlob(d))
    ensures Inv(Apply(s, DeleteBlob(d)))
  {
    forall u | u in s.uploads && !s.uploads[u].Returned? ensures KeyFor(d) != TempKey(s.uploads[u].nonce) {
      StagingIsNotABlob(d, s.uploads[u].nonce);
    }
    RemovalKeepsInv(s, KeyFor(d), Apply(s, DeleteBlob(d)));
  }

  lemma InvGcVisit(s: State, ok: bool)
    requires Inv(s) && Enabled(s, GcVisit(ok))
    ensures Inv(Apply(s, GcVisit(ok)))
  {
    var key := s.gc.pending[0];
    if Gc.Orphan(s.gc.refs, key) && ok {
      forall u | u in s.uploads && !s.uploads[u].Returned? ensures key != TempKey(s.uploads[u].nonce) {
        assert PhaseOk(s.objects, s.uploads[u]);
        TempNotOrphan(s.gc.refs, s.uploads[u].nonce);
      }
      RemovalKeepsInv(s, key, Apply(s, GcVisit(ok)));
    }
  }

  /** Every step keeps the invariant, so no interleaving ever puts wrong bytes under a digest. */
  lemma StepKeepsInv(s: State, step: Step)
    requires Inv(s) && Enabled(s, step)
    ensures Inv(Apply(s, step))
  {
    match step
    case StartPut(u, body, claim, nonce) => InvStartPut(s, u, body, claim, nonce);
    case WriteFinal(u) => InvWriteFinal(s, u);
    case DropTemp(u, ok) => InvDropTemp(s, u, ok);
    case DeleteBlob(d) => InvDeleteBlob(s, d);
    case GcVisit(ok) => InvGcVisit(s, ok);
    case StatHit(_) => InvPhaseMoves(s, step);
    case StatMiss(_) => InvPhaseMoves(s, step);
    case OpenTemp(_) => InvPhaseMoves(s, step);
    case _ =>
  }

  // ---------------------------------------------------------------- safety

  /** The blob is stored but the adapter may still have a row to write for it. */
  predicate InWindow(p: Phase) {
    p.Stored? || p.Returned?
  }

  ghost function WindowDigests(s: State): set<string> {
    set u | u in s.uploads && InWindow(s.uploads[u]) :: s.uploads[u].claim
  }

  /** Digests that a row names or is about to name. */
  ghost function Needed(s: State): set<string> {
    RowDigests(s) + WindowDigests(s)
  }

  /** The sweep has yet to come past this key. */
  predicate Ahead(gc: Collector, key: string) {
    match gc
    case Idle => false
    case Listing(_, token) => token == "" || Lt(token, key)
    case Sweeping(_, pending, next) => key in pending || (next != "" && Lt(next, key))
  }

  /** The running collection would delete the blob on reaching it. */
  predicate Threatened(gc: Collector, d: string) {
    !gc.Idle? && d !in gc.refs && Ahead(gc, KeyFor(d))
  }

  ghost predicate Safe(s: State) {
    forall d :: d in Needed(s) ==> HasBlob(s.objects, d) && !Threatened(s.gc, d)
  }

  ghost predicate RowsHaveBlobs(s: State) {
    forall k :: k in s.rows ==> HasBlob(s.objects, s.rows[k])
  }

  /** What the put stores is not what the rows will name, and that is not stored either. */
  predicate StoresElse(s: State, u: nat)
    requires u in s.uploads
  {
    s.uploads[u].claim != DigestOf(s.uploads[u].body) && !HasBlob(s.objects, s.uploads[u].claim)
  }

  /**
   The steps that break safety: a snapshot while a stored blob still waits for its first
   row, storing a blob that the running collection has yet to sweep away, storing something
   else than the rows will name while that is not stored, and deleting a needed blob outright.
   */
  ghost predicate Hazard(s: State, step: Step) {
    match step
    case GcSnapshot => !(WindowDigests(s) <= RowDigests(s))
    case StatHit(u) =>
      u in s.uploads && s.uploads[u].Staged? && (Threatened(s.gc, s.uploads[u].claim) || StoresElse(s, u))
    case WriteFinal(u) =>
      u in s.uploads && s.uploads[u].Opened? && (Threatened(s.gc, s.uploads[u].claim) || StoresElse(s, u))
    case DeleteBlob(d) => d in Needed(s)
    case _ => false
  }

  lemma WindowAfterStore(s: State, s': State, u: nat)
    requires u in s.uploads && !InWindow(s.uploads[u]) && u in s'.uploads && s'.uploads[u].Stored?
    requires s'.uploads == s.uploads[u := s'.uploads[u]]
    ensures WindowDigests(s') == WindowDigests(s) + {s'.uploads[u].claim}
  {
    assert InWindow(s'.uploads[u]);
    forall d | d in WindowDigests(s) ensures d in WindowDigests(s') {
      var v :| v in s.uploads && InWindow(s.uploads[v]) && s.uploads[v].claim == d;
      assert s'.uploads[v] == s.uploads[v];
    }
  }

  /** Needing one more digest is safe exactly when it is stored and the collection is not about to delete it. */
  lemma OneMoreNeeded(s: State, s': State, d: string)
    requires Safe(s) && s'.gc == s.gc && Needed(s') == Needed(s) + {d}
    requires forall e :: HasBlob(s.objects, e) ==> HasBlob(s'.objects, e)
    ensures Safe(s') <==> HasBlob(s'.objects, d) && !Threatened(s.gc, d)
  {
  }

  /** Storing adds the blob of the body and takes none away. */
  lemma BlobsAfterStore(s: State, step: Step, d: string)
    requires Enabled(s, step) && (step.StatHit? || step.WriteFinal?)
    ensures HasBlob(Apply(s, step).objects, d) <==>
            HasBlob(s.objects, d) || (step.WriteFinal? && d == DigestOf(s.uploads[step.u].body))
    ensures forall e :: HasBlob(s.objects, e) ==> HasBlob(Apply(s, step).objects, e)
  {
    var body := s.uploads[step.u].body;
    DigestIsValid(body);
    if ValidDigest(d) && KeyFor(d) == KeyFor(DigestOf(body)) { KeyForInjective(d, DigestOf(body)); }
  }

  lemma NeededAfterStore(s: State, step: Step)
    requires Enabled(s, step) && (step.StatHit? || step.WriteFinal?)
    ensures Needed(Apply(s, step)) == Needed(s) + {s.uploads[step.u].claim} && Apply(s, step).gc == s.gc
  {
    WindowAfterStore(s, Apply(s, step), step.u);
    assert RowDigests(Apply(s, step)) == RowDigests(s);
  }

  lemma SafeAfterStore(s: State, step: Step)
    requires Inv(s) && Safe(s) && Enabled(s, step) && (step.StatHit? || step.WriteFinal?)
    ensures Safe(Apply(s, step)) <==> !Hazard(s, step)
  {
    var s' := Apply(s, step);
    NeededAfterStore(s, step);
    BlobsAfterStore(s, step, s.uploads[step.u].claim);
    OneMoreNeeded(s, s', s.uploads[step.u].claim);
  }

  lemma SafeAfterDelete(s: State, d: string)
    requires Inv(s) && Safe(s) && Enabled(s, DeleteBlob(d))
    ensures Safe(Apply(s, DeleteBlob(d))) <==> !Hazard(s, DeleteBlob(d))
  {
    BlobDropped(s.objects, d);
    assert Needed(Apply(s, DeleteBlob(d))) == Needed(s);
  }

  lemma SafeAfterSnapshot(s: State)
    requires Safe(s) && Enabled(s, GcSnapshot)
    ensures Safe(Apply(s, GcSnapshot)) <==> !Hazard(s, GcSnapshot)
  {
    assert Needed(Apply(s, GcSnapshot)) == Needed(s);
  }

  /** A listing moves the cursor on: a key ahead of the sweep afterwards was ahead of it before. */
  lemma ListingMovesOn(gc: Collector, all: set<string>, limit: nat, key: string)
    requires gc.Listing? && "" !in all && limit > 0
    ensures var p := PageOf(all, gc.token, limit);
            Ahead(Sweeping(gc.refs, p.keys, p.next), key) ==> Ahead(gc, key)
  {
    var p := PageOf(all, gc.token, limit);
    PageSplits(all, gc.token, limit);
    PageBelowToken(all, gc.token, limit);
    if p.next != "" && Lt(p.next, key) && gc.token != "" { LtTransitive(gc.token, p.next, key); }
  }

  lemma SafeAfterList(s: State)
    requires Inv(s) && Safe(s) && Enabled(s, GcList)
    ensures Safe(Apply(s, GcList))
  {
    var s' := Apply(s, GcList);
    assert Needed(s') == Needed(s);
    forall d | d in Needed(s) ensures HasBlob(s'.objects, d) && !Threatened(s'.gc, d) {
      ListingMovesOn(s.gc, Listed(s.objects, Gc.ROOT), 1000, KeyFor(d));
    }
  }

  /** A visit deletes only a key that stands for an unreferenced digest. */
  lemma SafeAfterVisit(s: State, ok: bool)
    requires Safe(s) && Enabled(s, GcVisit(ok))
    ensures Safe(Apply(s, GcVisit(ok)))
  {
    var s' := Apply(s, GcVisit(ok));
    assert s.gc.pending == [s.gc.pending[0]] + s'.gc.pending;
    assert Needed(s') == Needed(s);
    forall d | d in Needed(s) ensures HasBlob(s'.objects, d) && !Threatened(s'.gc, d) {
      assert HasBlob(s.objects, d) && !Threatened(s.gc, d);
      Gc.KeyForInverted(d);
    }
  }

  lemma SafeAfterTurn(s: State, step: Step)
    requires Safe(s) && Enabled(s, step) && (step.GcNext? || step.GcAbort?)
    ensures Safe(Apply(s, step))
  {
    assert Needed(Apply(s, step)) == Needed(s);
  }

  predicate OnlyCarriesOn(step: Step) {
    step.StartPut? || step.StatMiss? || step.OpenTemp? || step.DropTemp? || step.WriteRow?
    || step.EndUpload? || step.DeleteRow?
  }

  lemma NeededShrinks(s: State, step: Step)
    requires Inv(s) && Enabled(s, step) && OnlyCarriesOn(step)
    ensures Needed(Apply(s, step)) <= Needed(s)
  {
    var s' := Apply(s, step);
    forall v | v in s'.uploads && InWindow(s'.uploads[v]) ensures s'.uploads[v].claim in WindowDigests(s) {
      assert v in s.uploads && InWindow(s.uploads[v]) && s.uploads[v].claim == s'.uploads[v].claim;
    }
    forall k | k in s'.rows ensures s'.rows[k] in Needed(s) {
      if step.WriteRow? && k == (step.repoId, step.path) {
        assert InWindow(s.uploads[step.u]);
      } else {
        assert k in s.rows;
      }
    }
  }

  lemma SafeAfterUploadStep(s: State, step: Step)
    requires Inv(s) && Safe(s) && Enabled(s, step) && OnlyCarriesOn(step)
    ensures Safe(Apply(s, step))
  {
    var s' := Apply(s, step);
    NeededShrinks(s, step);
    forall d | HasBlob(s.objects, d) ensures HasBlob(s'.objects, d) {
      if step.DropTemp? { StagingIsNotABlob(d, s.uploads[step.u].nonce); }
    }
  }

  /** From a safe state, a step leads to a safe state exactly when it is not a hazard. */
  lemma SafeIffNoHazard(s: State, step: Step)
    requires Inv(s) && Safe(s) && Enabled(s, step)
    ensures Safe(Apply(s, step)) <==> !Hazard(s, step)
  {
    match step
    case GcSnapshot => SafeAfterSnapshot(s);
    case StatHit(_) => SafeAfterStore(s, step);
    case WriteFinal(_) => SafeAfterStore(s, step);
    case DeleteBlob(d) => SafeAfterDelete(s, d);
    case GcList => SafeAfterList(s);
    case GcVisit(ok) => SafeAfterVisit(s, ok);
    case GcNext => SafeAfterTurn(s, step);
    case GcAbort => SafeAfterTurn(s, step);
    case _ => SafeAfterUploadStep(s, step);
  }

  // ---------------------------------------------------------------- whole runs

  /** A fresh installation, from which every run below may start. */
  const START: State := State(map[], map[], map[], Idle)

  lemma StartIsSafe()
    ensures Inv(START) && Safe(START)
  {
  }

  ghost predicate Runs(s: State, steps: seq<Step>)
    decreases |steps|
  {
    steps == [] || (Enabled(s, steps[0]) && Runs(Apply(s, steps[0]), steps[1..]))
  }

  ghost function After(s: State, steps: seq<Step>): State
    requires Runs(s, steps)
    decreases |steps|
  {
    if steps == [] then s else After(Apply(s, steps[0]), steps[1..])
  }

  /** Every state of the run is safe, the first and the last included. */
  ghost predicate AlwaysSafe(s: State, steps: seq<Step>)
    requires Runs(s, steps)
    decreases |steps|
  {
    Safe(s) && (steps == [] || AlwaysSafe(Apply(s, steps[0]), steps[1..]))
  }

  ghost predicate HazardFree(s: State, steps: seq<Step>)
    requires Runs(s, steps)
    decreases |steps|
  {
    steps == [] || (!Hazard(s, steps[0]) && HazardFree(Apply(s, steps[0]), steps[1..]))
  }

  lemma {:induction false} RunKeepsInv(s: State, steps: seq<Step>)
    requires Inv(s) && Runs(s, steps)
    ensures Inv(After(s, steps))
    decreases |steps|
  {
    if steps != [] {
      StepKeepsInv(s, steps[0]);
      RunKeepsInv(Apply(s, steps[0]), steps[1..]);
    }
  }

  /**
   Integrity over all interleavings: whatever uploads, deletes and collections do, the
   bytes under a digest's key hash to the digest, and a `Put` that returned has
   reported the hash and length of exactly the bytes it read.
   */
  lemma ContentIsAlwaysAddressed(s: State, steps: seq<Step>, d: string, u: nat)
    requires Inv(s) && Runs(s, steps)
    ensures var t := After(s, steps);
            && (HasBlob(t.objects, d) ==> DigestOf(t.objects[KeyFor(d)]) == d)
            && (u in t.uploads && t.uploads[u].Returned? ==>
                  t.uploads[u].receipt == Receipt(DigestOf(t.uploads[u].body), |t.uploads[u].body|))
  {
    RunKeepsInv(s, steps);
    var t := After(s, steps);
    if u in t.uploads { assert PhaseOk(t.objects, t.uploads[u]); }
  }

  /** A run from a safe state stays safe throughout if and only if none of its steps is a hazard. */
  lemma {:induction false} RunSafeIffHazardFree(s: State, steps: seq<Step>)
    requires Inv(s) && Safe(s) && Runs(s, steps)
    ensures AlwaysSafe(s, steps) <==> HazardFree(s, steps)
    decreases |steps|
  {
    if steps != [] {
      SafeIffNoHazard(s, steps[0]);
      StepKeepsInv(s, steps[0]);
      if Safe(Apply(s, steps[0])) { RunSafeIffHazardFree(Apply(s, steps[0]), steps[1..]); }
    }
  }

  lemma SafeRowsHaveBlobs(s: State)
    requires Safe(s)
    ensures RowsHaveBlobs(s)
  {
    forall k | k in s.rows ensures HasBlob(s.objects, s.rows[k]) { assert s.rows[k] in Needed(s); }
  }

  /** No row of any state of a hazard-free run points at a missing blob. */
  lemma {:induction false} HazardFreeRunKeepsRows(s: State, steps: seq<Step>)
    requires Inv(s) && Safe(s) && Runs(s, steps) && HazardFree(s, steps)
    ensures RowsHaveBlobs(After(s, steps)) && Safe(After(s, steps)) && Inv(After(s, steps))
    decreases |steps|
  {
    if steps == [] {
      SafeRowsHaveBlobs(s);
    } else {
      SafeIffNoHazard(s, steps[0]);
      StepKeepsInv(s, steps[0]);
      HazardFreeRunKeepsRows(Apply(s, steps[0]), steps[1..]);
    }
  }

  /** Steps that only carry on with what is under way: no new snapshot, no newly stored blob, no outright delete. */
  predicate Settling(step: Step) {
    !step.GcSnapshot? && !step.StatHit? && !step.WriteFinal? && !step.DeleteBlob?
  }

  ghost predicate AllSettling(steps: seq<Step>) {
    forall i :: 0 <= i < |steps| ==> Settling(steps[i])
  }

  /** Carrying on with what is under way may leave a row without its blob. */
  ghost predicate CanDangle(s: State) {
    exists steps :: Runs(s, steps) && AllSettling(steps) && !RowsHaveBlobs(After(s, steps))
  }

  lemma RunCons(s: State, step: Step, rest: seq<Step>)
    requires Enabled(s, step) && Runs(Apply(s, step), rest)
    ensures Runs(s, [step] + rest) && After(s, [step] + rest) == After(Apply(s, step), rest)
  {
    assert ([step] + rest)[1..] == rest;
  }

  lemma RunUncons(s: State, steps: seq<Step>)
    requires Runs(s, steps) && steps != []
    ensures Enabled(s, steps[0]) && Runs(Apply(s, steps[0]), steps[1..])
    ensures After(s, steps) == After(Apply(s, steps[0]), steps[1..])
  {
  }

  lemma {:induction false} RunThen(s: State, a: seq<Step>, b: seq<Step>)
    requires Runs(s, a) && Runs(After(s, a), b)
    ensures Runs(s, a + b) && After(s, a + b) == After(After(s, a), b)
    decreases |a|
  {
    if a == [] {
      assert a + b == b;
    } else {
      RunUncons(s, a);
      var t, rest := Apply(s, a[0]), a[1..];
      RunThen(t, rest, b);
      RunCons(s, a[0], rest + b);
      ConsAppend(a, b);
    }
  }

  lemma RunOne(s: State, step: Step)
    requires Enabled(s, step)
    ensures Runs(s, [step]) && After(s, [step]) == Apply(s, step)
  {
    RunCons(s, step, []);
    assert [step] + [] == [step];
  }

  lemma {:induction false} SettlingIsHazardFree(s: State, steps: seq<Step>)
    requires Runs(s, steps) && AllSettling(steps)
    ensures HazardFree(s, steps)
    decreases |steps|
  {
    if steps != [] {
      assert Settling(steps[0]);
      assert forall i :: 0 <= i < |steps[1..]| ==> steps[1..][i] == steps[i + 1];
      SettlingIsHazardFree(Apply(s, steps[0]), steps[1..]);
    }
  }

  // ---------------------------------------------------------------- a threatened blob is lost

  /** Where the sweep will list from next. */
  function Cursor(gc: Collector): string
    requires !gc.Idle?
  {
    if gc.Listing? then gc.token else gc.next
  }

  /** How many keys the sweep has yet to list. */
  ghost function ToList(s: State): nat
    requires !s.gc.Idle?
  {
    if s.gc.Sweeping? && s.gc.next == "" then 0 else |Beyond(Listed(s.objects, Gc.ROOT), Cursor(s.gc))|
  }

  lemma SubsetSize(a: set<string>, b: set<string>)
    requires a <= b
    ensures |a| <= |b|
  {
    assert b == a + (b - a);
  }

  /** Left to itself, a running collection reaches and deletes a blob it threatens. */
  lemma {:induction false} SweepDeletes(s: State, d: string) returns (steps: seq<Step>)
    requires Inv(s) && Threatened(s.gc, d) && HasBlob(s.objects, d)
    ensures Runs(s, steps) && AllSettling(steps)
    ensures After(s, steps).rows == s.rows && After(s, steps).uploads == s.uploads
    ensures !HasBlob(After(s, steps).objects, d)
    decreases ToList(s), s.gc.Sweeping?, if s.gc.Sweeping? then |s.gc.pending| else 0
  {
    var step := SweepStep(s, d);
    var s' := Apply(s, step);
    StepKeepsInv(s, step);
    assert Runs(s', []);
    if HasBlob(s'.objects, d) {
      var rest := SweepDeletes(s', d);
      steps := [step] + rest;
      assert steps[1..] == rest;
    } else {
      steps := [step];
      assert steps[1..] == [];
    }
  }

  /**
   One step of that got closer to deleting the blob: it is gone, or still threatened with
   less left to list or visit.
   */
  ghost predicate Closer(s: State, s': State, d: string)
    requires !s.gc.Idle?
  {
    && s'.rows == s.rows && s'.uploads == s.uploads
    && (HasBlob(s'.objects, d) ==>
          && Threatened(s'.gc, d)
          && ToList(s') <= ToList(s)
          && (ToList(s') == ToList(s) ==>
                && s.gc.Sweeping?
                && (s'.gc.Sweeping? ==> |s'.gc.pending| < |s.gc.pending|)))
  }

  lemma PageMovesOn(all: set<string>, token: string, limit: nat, key: string)
    requires "" !in all && limit > 0 && key in Beyond(all, token)
    ensures var p := PageOf(all, token, limit);
            && (key in p.keys || (p.next != "" && Lt(p.next, key)))
            && |Beyond(all, token)| > 0
            && (p.next != "" ==> |Beyond(all, p.next)| < |Beyond(all, token)|)
  {
    OnPageOrAhead(all, token, limit, key);
    PageSplits(all, token, limit);
  }

  lemma ListGetsCloser(s: State, d: string)
    requires Inv(s) && Threatened(s.gc, d) && HasBlob(s.objects, d) && s.gc.Listing?
    ensures Enabled(s, GcList) && Closer(s, Apply(s, GcList), d)
  {
    Gc.KeyForInverted(d);
    PageMovesOn(Listed(s.objects, Gc.ROOT), s.gc.token, 1000, KeyFor(d));
  }

  lemma VisitGetsCloser(s: State, d: string)
    requires Threatened(s.gc, d) && HasBlob(s.objects, d) && s.gc.Sweeping? && s.gc.pending != []
    ensures Enabled(s, GcVisit(true)) && Closer(s, Apply(s, GcVisit(true)), d)
  {
    Gc.KeyForInverted(d);
    var s' := Apply(s, GcVisit(true));
    if KeyFor(d) in s.gc.pending && KeyFor(d) != s.gc.pending[0] { StaysInTail(s.gc.pending, KeyFor(d)); }
    SubsetSize(Beyond(Listed(s'.objects, Gc.ROOT), s.gc.next), Beyond(Listed(s.objects, Gc.ROOT), s.gc.next));
  }

  lemma NextGetsCloser(s: State, d: string)
    requires Threatened(s.gc, d) && s.gc.Sweeping? && s.gc.pending == []
    ensures Enabled(s, GcNext) && Closer(s, Apply(s, GcNext), d)
  {
  }

  lemma SweepStep(s: State, d: string) returns (step: Step)
    requires Inv(s) && Threatened(s.gc, d) && HasBlob(s.objects, d)
    ensures Settling(step) && Enabled(s, step) && Closer(s, Apply(s, step), d)
  {
    if s.gc.Listing? {
      step := GcList;
      ListGetsCloser(s, d);
    } else if s.gc.pending == [] {
      step := GcNext;
      NextGetsCloser(s, d);
    } else {
      step := GcVisit(true);
      VisitGetsCloser(s, d);
    }
  }

  /** A needed digest without its blob ends up in a row without a blob. */
  lemma PendingRowDangles(s: State, d: string) returns (steps: seq<Step>)
    requires d in Needed(s) && !HasBlob(s.objects, d)
    ensures Runs(s, steps) && AllSettling(steps) && !RowsHaveBlobs(After(s, steps))
  {
    if d in RowDigests(s) {
      steps := [];
    } else {
      var u :| u in s.uploads && InWindow(s.uploads[u]) && s.uploads[u].claim == d;
      var write := WriteRow(u, "", "");
      if s.uploads[u].Returned? {
        RowWriteDangles(s, u);
        steps := [write];
      } else {
        var drop := DropTemp(u, true);
        var t := Apply(s, drop);
        RowWriteDangles(t, u);
        RunCons(s, drop, [write]);
        steps := [drop] + [write];
      }
    }
  }

  lemma RowWriteDangles(s: State, u: nat)
    requires u in s.uploads && s.uploads[u].Returned? && !HasBlob(s.objects, s.uploads[u].claim)
    ensures var write := WriteRow(u, "", "");
            Runs(s, [write]) && !RowsHaveBlobs(After(s, [write]))
  {
    var write := WriteRow(u, "", "");
    RunOne(s, write);
    assert ("", "") in Apply(s, write).rows;
  }

  /**
   Safety is exactly what protects the rows: in a safe state, carrying on with what is
   under way never leaves a row without a blob, and in an unsafe one it can.
   */
  lemma SafeIffCannotDangle(s: State)
    requires Inv(s)
    ensures Safe(s) <==> !CanDangle(s)
  {
    if Safe(s) {
      forall steps | Runs(s, steps) && AllSettling(steps) ensures RowsHaveBlobs(After(s, steps)) {
        SettlingIsHazardFree(s, steps);
        HazardFreeRunKeepsRows(s, steps);
      }
    } else {
      var d :| d in Needed(s) && !(HasBlob(s.objects, d) && !Threatened(s.gc, d));
      var steps := UnsafeDangles(s, d);
    }
  }

  /** A needed digest whose blob is missing or about to be swept away can end up in a row without a blob. */
  lemma UnsafeDangles(s: State, d: string) returns (steps: seq<Step>)
    requires Inv(s) && d in Needed(s) && (!HasBlob(s.objects, d) || Threatened(s.gc, d))
    ensures Runs(s, steps) && AllSettling(steps) && !RowsHaveBlobs(After(s, steps))
  {
    var sweep: seq<Step> := [];
    if HasBlob(s.objects, d) { sweep := SweepDeletes(s, d); }
    var t := After(s, sweep);
    assert Needed(t) == Needed(s);
    var finish := PendingRowDangles(t, d);
    RunThen(s, sweep, finish);
    steps := sweep + finish;
  }

  /** Each hazard is one: right after it, carrying on can leave a row without its blob. */
  lemma HazardCanDangle(s: State, step: Step)
    requires Inv(s) && Safe(s) && Enabled(s, step) && Hazard(s, step)
    ensures CanDangle(Apply(s, step))
  {
    SafeIffNoHazard(s, step);
    StepKeepsInv(s, step);
    SafeIffCannotDangle(Apply(s, step));
  }

  // ---------------------------------------------------------------- keeping uploads and collections apart

  /** While the collector runs, only uploads are left whose digest a row named when it took its snapshot. */
  ghost predicate Apart(s: State) {
    s.gc.Idle? || forall u :: u in s.uploads ==> s.uploads[u].Returned? && s.uploads[u].claim in s.gc.refs
  }

  /**
   Throughout the run, each upload has its row before the collector's snapshot or starts
   after the sweep has ended, nothing needed is deleted outright, and no put stores something
   else than its rows will name while that is missing.
   */
  ghost predicate KeptApart(s: State, steps: seq<Step>)
    requires Runs(s, steps)
    decreases |steps|
  {
    && Apart(s)
    && (steps == [] ||
          (&& (steps[0].DeleteBlob? ==> steps[0].digest !in Needed(s))
           && (steps[0].StatHit? || steps[0].WriteFinal? ==> !StoresElse(s, steps[0].u))
           && KeptApart(Apply(s, steps[0]), steps[1..])))
  }

  lemma ApartIsNoHazard(s: State, step: Step)
    requires Enabled(s, step) && Apart(s) && Apart(Apply(s, step)) && (step.DeleteBlob? ==> step.digest !in Needed(s))
    requires step.StatHit? || step.WriteFinal? ==> !StoresElse(s, step.u)
    ensures !Hazard(s, step)
  {
    if step.GcSnapshot? {
      forall u | u in s.uploads && InWindow(s.uploads[u]) ensures s.uploads[u].claim in RowDigests(s) {
        assert u in Apply(s, step).uploads;
      }
    }
  }

  /** Non-overlap suffices: no row is ever left without its blob. */
  lemma {:induction false} KeptApartKeepsRows(s: State, steps: seq<Step>)
    requires Inv(s) && Safe(s) && Runs(s, steps) && KeptApart(s, steps)
    ensures HazardFree(s, steps) && RowsHaveBlobs(After(s, steps))
    decreases |steps|
  {
    if steps == [] {
      SafeRowsHaveBlobs(s);
    } else {
      var s' := Apply(s, steps[0]);
      ApartIsNoHazard(s, steps[0]);
      SafeIffNoHazard(s, steps[0]);
      StepKeepsInv(s, steps[0]);
      KeptApartKeepsRows(s', steps[1..]);
    }
  }

  /**
   Overlap is not harmless, contrary to what the collector's own comment says: for any
   content already stored but unreferenced, an upload of it that is deduplicated by
   the stat hit and then overtaken by a collection ends with a row and no blob.
   */
  lemma DedupRace(body: Bytes, nonce: string) returns (more: seq<Step>)
    requires LowerHex(nonce, 32)
    ensures var s := State(map[KeyFor(DigestOf(body)) := body], map[], map[], Idle);
            var steps := [StartPut(0, body, DigestOf(body), nonce)] + ([StatHit(0)] + ([GcSnapshot] + more));
            && Inv(s) && Safe(s)
            && AllSettling(more)
            && Runs(s, steps) && !RowsHaveBlobs(After(s, steps))
  {
    var d := DigestOf(body);
    DigestIsValid(body);
    StagingIsNotABlob(d, nonce);
    var s := State(map[KeyFor(d) := body], map[], map[], Idle);
    OneBlobIsFine(s, body);
    var s1 := Apply(s, StartPut(0, body, DigestOf(body), nonce));
    StepKeepsInv(s, StartPut(0, body, DigestOf(body), nonce));
    SafeIffNoHazard(s, StartPut(0, body, DigestOf(body), nonce));
    var s2 := Apply(s1, StatHit(0));
    StepKeepsInv(s1, StatHit(0));
    SafeIffNoHazard(s1, StatHit(0));
    WindowAfterStore(s1, s2, 0);
    HazardCanDangle(s2, GcSnapshot);
    var s3 := Apply(s2, GcSnapshot);
    more :| Runs(s3, more) && AllSettling(more) && !RowsHaveBlobs(After(s3, more));
    RunCons(s2, GcSnapshot, more);
    RunCons(s1, StatHit(0), [GcSnapshot] + more);
    RunCons(s, StartPut(0, body, DigestOf(body), nonce), [StatHit(0)] + ([GcSnapshot] + more));
  }

  lemma OneBlobIsFine(s: State, body: Bytes)
    requires s == State(map[KeyFor(DigestOf(body)) := body], map[], map[], Idle)
    ensures Inv(s) && Safe(s)
  {
    DigestIsValid(body);
    forall e | ValidDigest(e) && KeyFor(e) in s.objects ensures e == DigestOf(body) {
      KeyForInjective(e, DigestOf(body));
    }
  }
}
