/**
 The interleaved steps, when nothing is interleaved, are the sequential operations:
 one upload by itself is `CAS.Put`, and one collection by itself is `packrune gc`.
 */
module UploadGcAlone {
  import opened Order
  import opened Storage
  import opened Cas
  import opened UploadGcProtocol
  import Gc

  // ---------------------------------------------------------------- one upload

  /** The steps between staging and dropping the temporary object. */
  function StoreSteps(u: nat, hit: bool): seq<Step> {
    if hit then [StatHit(u)] else [StatMiss(u)] + ([OpenTemp(u)] + [WriteFinal(u)])
  }

  function StoredObjects(objects: Objects, body: Bytes, nonce: string, hit: bool): Objects {
    if hit then objects else objects[KeyFor(DigestOf(body)) := body]
  }

  /** One upload in some phase, everything else as in `s`. */
  ghost function With(s: State, objects: Objects, u: nat, phase: Phase): State {
    s.(objects := objects, uploads := s.uploads[u := phase])
  }

  lemma WithTwice(s: State, a: Objects, b: Objects, u: nat, p: Phase, q: Phase)
    ensures With(With(s, a, u, p), b, u, q) == With(s, b, u, q)
  {
    assert s.uploads[u := p][u := q] == s.uploads[u := q];
  }

  lemma MissAlone(s: State, objects: Objects, u: nat, body: Bytes, claim: string, nonce: string)
    requires TempKey(nonce) in objects && objects[TempKey(nonce)] == body
    ensures var staged := With(s, objects, u, Staged(body, claim, nonce));
            var missed := With(s, objects, u, Missed(body, claim, nonce));
            var read := With(s, objects, u, Opened(body, claim, nonce, body));
            && Enabled(staged, StatMiss(u)) && Apply(staged, StatMiss(u)) == missed
            && Enabled(missed, OpenTemp(u)) && Apply(missed, OpenTemp(u)) == read
            && Enabled(read, WriteFinal(u))
            && Apply(read, WriteFinal(u)) ==
               With(s, objects[KeyFor(DigestOf(body)) := body], u, Stored(body, claim, nonce, ReceiptFor(body)))
  {
    WithTwice(s, objects, objects, u, Staged(body, claim, nonce), Missed(body, claim, nonce));
    WithTwice(s, objects, objects, u, Missed(body, claim, nonce), Opened(body, claim, nonce, body));
    WithTwice(s, objects, objects[KeyFor(DigestOf(body)) := body], u, Opened(body, claim, nonce, body),
              Stored(body, claim, nonce, ReceiptFor(body)));
  }

  lemma HitAlone(s: State, objects: Objects, u: nat, body: Bytes, claim: string, nonce: string)
    requires KeyFor(DigestOf(body)) in objects
    ensures var staged := With(s, objects, u, Staged(body, claim, nonce));
            && Enabled(staged, StatHit(u))
            && Apply(staged, StatHit(u)) == With(s, objects, u, Stored(body, claim, nonce, ReceiptFor(body)))
  {
    WithTwice(s, objects, objects, u, Staged(body, claim, nonce), Stored(body, claim, nonce, ReceiptFor(body)));
  }

  lemma StoringAlone(s: State, objects: Objects, u: nat, body: Bytes, claim: string, nonce: string, hit: bool)
    requires TempKey(nonce) in objects && objects[TempKey(nonce)] == body
    requires hit ==> KeyFor(DigestOf(body)) in objects
    ensures var staged := With(s, objects, u, Staged(body, claim, nonce));
            && Runs(staged, StoreSteps(u, hit))
            && After(staged, StoreSteps(u, hit)) ==
               With(s, StoredObjects(objects, body, nonce, hit), u, Stored(body, claim, nonce, ReceiptFor(body)))
  {
    var staged := With(s, objects, u, Staged(body, claim, nonce));
    if hit {
      HitAlone(s, objects, u, body, claim, nonce);
      RunOne(staged, StatHit(u));
    } else {
      MissAlone(s, objects, u, body, claim, nonce);
      var missed := With(s, objects, u, Missed(body, claim, nonce));
      RunOne(With(s, objects, u, Opened(body, claim, nonce, body)), WriteFinal(u));
      RunCons(missed, OpenTemp(u), [WriteFinal(u)]);
      RunCons(staged, StatMiss(u), [OpenTemp(u)] + [WriteFinal(u)]);
    }
  }

  lemma DropAlone(s: State, objects: Objects, u: nat, body: Bytes, claim: string, nonce: string, fails: bool)
    ensures var stored := With(s, objects, u, Stored(body, claim, nonce, ReceiptFor(body)));
            var drop := UploadGcProtocol.DropTemp(u, !fails);
            && Runs(stored, [drop])
            && After(stored, [drop]) ==
               With(s, Cas.DropTemp(objects, nonce, fails), u, Returned(body, claim, ReceiptFor(body)))
  {
    var stored := With(s, objects, u, Stored(body, claim, nonce, ReceiptFor(body)));
    RunOne(stored, UploadGcProtocol.DropTemp(u, !fails));
    WithTwice(s, objects, Cas.DropTemp(objects, nonce, fails), u, Stored(body, claim, nonce, ReceiptFor(body)),
              Returned(body, claim, ReceiptFor(body)));
  }

  /** `CAS.Put` with working writes, as one expression. */
  lemma PutInOne(objects: Objects, body: Bytes, nonce: string, statFails: bool, dropFails: bool)
    ensures var staged := objects[TempKey(nonce) := body];
            var hit := KeyFor(DigestOf(body)) in objects && !statFails;
            PutSteps(objects, body, nonce, PutFaults(false, statFails, false, false, dropFails)) ==
            (Cas.DropTemp(StoredObjects(staged, body, nonce, hit), nonce, dropFails), Ok(ReceiptFor(body)))
  {
    DigestIsValid(body);
    StagingIsNotABlob(DigestOf(body), nonce);
  }

  ghost function UploadSteps(s: State, u: nat, body: Bytes, claim: string, nonce: string, statFails: bool,
                             dropFails: bool): seq<Step>
  {
    var hit := KeyFor(DigestOf(body)) in s.objects && !statFails;
    [StartPut(u, body, claim, nonce)] + (StoreSteps(u, hit) + [UploadGcProtocol.DropTemp(u, !dropFails)])
  }

  /**
   An upload whose steps run one after the other leaves and returns what `CAS.Put` does,
   failing stats and deletes included.
   */
  lemma UploadAloneIsPut(s: State, u: nat, body: Bytes, claim: string, nonce: string, statFails: bool, dropFails: bool)
    requires Enabled(s, StartPut(u, body, claim, nonce))
    ensures var steps := UploadSteps(s, u, body, claim, nonce, statFails, dropFails);
            var (objects, r) := PutSteps(s.objects, body, nonce, PutFaults(false, statFails, false, false, dropFails));
            && Runs(s, steps) && r.Ok?
            && After(s, steps) == With(s, objects, u, Returned(body, claim, r.value))
  {
    var hit := KeyFor(DigestOf(body)) in s.objects && !statFails;
    var objects := s.objects[TempKey(nonce) := body];
    var start, drop := StartPut(u, body, claim, nonce), UploadGcProtocol.DropTemp(u, !dropFails);
    var staged := With(s, objects, u, Staged(body, claim, nonce));
    PutInOne(s.objects, body, nonce, statFails, dropFails);
    StoringAlone(s, objects, u, body, claim, nonce, hit);
    DropAlone(s, StoredObjects(objects, body, nonce, hit), u, body, claim, nonce, dropFails);
    RunThen(staged, StoreSteps(u, hit), [drop]);
    RunCons(s, start, StoreSteps(u, hit) + [drop]);
  }

  // ---------------------------------------------------------------- one collection

  ghost predicate OfCollectorOnly(steps: seq<Step>) {
    forall i :: 0 <= i < |steps| ==> OfCollector(steps[i])
  }

  /** The collector in some phase over some store, everything else as in `s`. */
  ghost function Collecting(s: State, objects: Objects, gc: Collector): State {
    s.(objects := objects, gc := gc)
  }

  ghost function SweptTo(start: Objects, refs: set<string>, done: seq<string>): Objects {
    Gc.Swept(start, refs, done, false, {})
  }

  lemma VisitAlone(s: State, start: Objects, refs: set<string>, done: seq<string>, pending: seq<string>, next: string)
    requires pending != []
    ensures var at := Collecting(s, SweptTo(start, refs, done), Sweeping(refs, pending, next));
            && Enabled(at, GcVisit(true))
            && Apply(at, GcVisit(true)) ==
               Collecting(s, SweptTo(start, refs, done + [pending[0]]), Sweeping(refs, pending[1..], next))
  {
    Gc.SweepOne(start, refs, done, pending[0], false, {});
  }

  /** Visiting the keys of a page one by one sweeps the page. */
  lemma {:induction false} PageAlone(s: State, start: Objects, refs: set<string>, done: seq<string>,
                                     pending: seq<string>, next: string) returns (steps: seq<Step>)
    ensures var at := Collecting(s, SweptTo(start, refs, done), Sweeping(refs, pending, next));
            && OfCollectorOnly(steps) && Runs(at, steps)
            && After(at, steps) == Collecting(s, SweptTo(start, refs, done + pending), Sweeping(refs, [], next))
    decreases |pending|
  {
    if pending == [] {
      steps := [];
      assert done + pending == done;
    } else {
      VisitAlone(s, start, refs, done, pending, next);
      var rest := PageAlone(s, start, refs, done + [pending[0]], pending[1..], next);
      RunCons(Collecting(s, SweptTo(start, refs, done), Sweeping(refs, pending, next)), GcVisit(true), rest);
      steps := [GcVisit(true)] + rest;
      ConsMiddle(done, pending);
    }
  }

  lemma ConsMiddle<T>(a: seq<T>, b: seq<T>)
    requires b != []
    ensures a + [b[0]] + b[1..] == a + b
  {
  }

  /** Listing a page and visiting its keys. */
  lemma OnePage(s: State, start: Objects, refs: set<string>, done: seq<string>, token: string)
    returns (p: ListResult, visits: seq<Step>)
    requires "" !in start && Gc.Passed(start, done, token)
    ensures Gc.Fits(start, done, token, p)
    ensures var at := Collecting(s, SweptTo(start, refs, done), Listing(refs, token));
            && Enabled(at, GcList) && Runs(Apply(at, GcList), visits) && OfCollectorOnly(visits)
            && After(Apply(at, GcList), visits) ==
               Collecting(s, SweptTo(start, refs, done + p.keys), Sweeping(refs, [], p.next))
  {
    var objects := SweptTo(start, refs, done);
    p := PageOf(Listed(objects, Gc.ROOT), token, 1000);
    Gc.NextPage(start, refs, done, token, false, {}, objects);
    visits := PageAlone(s, start, refs, done, p.keys, p.next);
  }

  /** From a listing on, the collector left alone finishes with the complete sweep of the store it started on. */
  lemma {:induction false} SweepAlone(s: State, start: Objects, refs: set<string>, done: seq<string>, token: string)
    returns (steps: seq<Step>)
    requires "" !in start && Gc.Passed(start, done, token)
    ensures var at := Collecting(s, SweptTo(start, refs, done), Listing(refs, token));
            && OfCollectorOnly(steps) && Runs(at, steps)
            && After(at, steps) == Collecting(s, SweptTo(start, refs, Gc.BlobKeys(start)), Idle)
    decreases |Beyond(Listed(start, Gc.ROOT), token)|
  {
    var at := Collecting(s, SweptTo(start, refs, done), Listing(refs, token));
    var p, visits := OnePage(s, start, refs, done, token);
    var rest: seq<Step> := [];
    if p.next != "" { rest := SweepAlone(s, start, refs, done + p.keys, p.next); }
    NextAlone(s, SweptTo(start, refs, done + p.keys), refs, p.next, rest);
    RunOnePage(at, visits, [GcNext] + rest);
    steps := [GcList] + (visits + ([GcNext] + rest));
  }

  lemma RunOnePage(at: State, visits: seq<Step>, tail: seq<Step>)
    requires Enabled(at, GcList) && Runs(Apply(at, GcList), visits) && Runs(After(Apply(at, GcList), visits), tail)
    requires OfCollectorOnly(visits) && OfCollectorOnly(tail)
    ensures var steps := [GcList] + (visits + tail);
            && OfCollectorOnly(steps) && Runs(at, steps)
            && After(at, steps) == After(After(Apply(at, GcList), visits), tail)
  {
    RunThen(Apply(at, GcList), visits, tail);
    RunCons(at, GcList, visits + tail);
  }

  lemma NextAlone(s: State, swept: Objects, refs: set<string>, next: string, rest: seq<Step>)
    requires next == "" ==> rest == []
    requires next != "" ==> Runs(Collecting(s, swept, Listing(refs, next)), rest)
    ensures var turn := Collecting(s, swept, Sweeping(refs, [], next));
            && Runs(turn, [GcNext] + rest)
            && After(turn, [GcNext] + rest) ==
               if next == "" then Collecting(s, swept, Idle) else After(Collecting(s, swept, Listing(refs, next)), rest)
  {
    var turn := Collecting(s, swept, Sweeping(refs, [], next));
    if next == "" {
      RunOne(turn, GcNext);
      assert [GcNext] + rest == [GcNext];
    } else {
      RunCons(turn, GcNext, rest);
    }
  }

  /**
   A collection whose steps run one after the other, with every delete working, leaves what
   a complete run of `packrune gc` leaves.
   */
  lemma CollectionAloneIsGC(s: State) returns (steps: seq<Step>)
    requires s.gc.Idle? && "" !in s.objects
    ensures OfCollectorOnly(steps) && Runs(s, steps)
    ensures After(s, steps) == s.(objects := Gc.AfterGC(s.objects, RowDigests(s)))
  {
    var refs := RowDigests(s);
    Gc.AtTheStart(s.objects, refs, false, {}, {});
    var rest := SweepAlone(s, s.objects, refs, [], "");
    RunCons(s, GcSnapshot, rest);
    steps := [GcSnapshot] + rest;
  }
}
