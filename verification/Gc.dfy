/**
 `packrune gc` run on its own: snapshot the referenced digests, then page through
 the blob keys and delete the orphans while paging.
 */
module Gc {
  import opened Text
  import opened Sequences
  import opened Order
  import opened Storage
  import opened Cas
  import opened Artifacts
  import opened Wrappers

  const ROOT: string := "blobs/"

  /** The digest a key stands for: second and fourth segment. Keys with fewer than four segments stand for none. */
  function DigestOfKey(key: string): Option<string> {
    var parts := Split(key, '/');
    if |parts| < 4 then None else Some(parts[1] + ":" + parts[3])
  }

  predicate Orphan(refs: set<string>, key: string) {
    DigestOfKey(key).Some? && DigestOfKey(key).value !in refs
  }

  ghost function Digests(rows: Rows): set<string> {
    set k | k in rows :: rows[k].digest
  }

  function OrphansIn(refs: set<string>, ks: seq<string>): (os: seq<string>)
    ensures forall k :: k in os <==> k in ks && Orphan(refs, k)
  {
    if ks == [] then []
    else
      var before := OrphansIn(refs, ks[..|ks| - 1]);
      var k := ks[|ks| - 1];
      assert ks == ks[..|ks| - 1] + [k];
      if Orphan(refs, k) then before + [k] else before
  }

  /** The bytes under the keys, less those under `skipped` ones. */
  function TotalSize(objects: Objects, ks: seq<string>, skipped: set<string>): nat
    requires forall k :: k in ks ==> k in objects
  {
    if ks == [] then 0
    else
      var k := ks[|ks| - 1];
      TotalSize(objects, ks[..|ks| - 1], skipped) + if k in skipped then 0 else |objects[k]|
  }

  /** The keys under `blobs/`, in listing order. */
  ghost function BlobKeys(objects: Objects): (ks: seq<string>)
    ensures forall k :: k in ks ==> k in objects
  {
    Sorted(Listed(objects, ROOT))
  }

  datatype Report = Report(scanned: nat, orphans: nat, freedBytes: nat)

  /** What a complete run reports; the sizes of keys in `blind` could not be read. */
  ghost function ReportFor(objects: Objects, refs: set<string>, ks: seq<string>, blind: set<string>): Report
    requires forall k :: k in ks ==> k in objects
  {
    Report(|ks|, |OrphansIn(refs, ks)|, TotalSize(objects, OrphansIn(refs, ks), blind))
  }

  /** The store after the keys `ks` were visited; keys in `stuck` could not be deleted. */
  ghost function Swept(objects: Objects, refs: set<string>, ks: seq<string>, dryRun: bool, stuck: set<string>): Objects
  {
    if dryRun then objects else objects - (Elems(OrphansIn(refs, ks)) - stuck)
  }

  method Snapshot(store: Store, fails: bool) returns (r: Result<set<string>>)
    ensures r == if fails then Err(IoFailure) else Ok(Digests(store.rows))
  {
    if fails { return Err(IoFailure); }
    var referenced := {};
    var scan := store.rows.Keys;
    while scan != {}
      invariant scan <= store.rows.Keys
      invariant referenced == set k | k in store.rows.Keys - scan :: store.rows[k].digest
    {
      var k :| k in scan;
      scan := scan - {k};
      referenced := referenced + {store.rows[k].digest};
    }
    assert referenced == Digests(store.rows);
    r := Ok(referenced);
  }

  /** Visiting one more key: the counters. */
  lemma CountOne(objects: Objects, refs: set<string>, done: seq<string>, key: string, blind: set<string>)
    requires forall k :: k in done + [key] ==> k in objects
    ensures OrphansIn(refs, done + [key]) == OrphansIn(refs, done) + (if Orphan(refs, key) then [key] else [])
    ensures var before, after := ReportFor(objects, refs, done, blind), ReportFor(objects, refs, done + [key], blind);
            var size := if key in blind then 0 else |objects[key]|;
            after == if Orphan(refs, key)
                     then Report(before.scanned + 1, before.orphans + 1, before.freedBytes + size)
                     else before.(scanned := before.scanned + 1)
  {
    Takes(done, [], key);
    if Orphan(refs, key) { Takes(OrphansIn(refs, done), [], key); }
  }

  /** Visiting one more key: the store. */
  lemma SweepOne(objects: Objects, refs: set<string>, done: seq<string>, key: string, dryRun: bool, stuck: set<string>)
    ensures Swept(objects, refs, done + [key], dryRun, stuck) ==
            if Orphan(refs, key) && !dryRun && key !in stuck
            then Swept(objects, refs, done, dryRun, stuck) - {key}
            else Swept(objects, refs, done, dryRun, stuck)
    ensures key in objects && key !in done ==> key in Swept(objects, refs, done, dryRun, stuck)
  {
    Takes(done, [], key);
    var os := OrphansIn(refs, done);
    assert Elems(os + [key]) == Elems(os) + {key};
  }

  /** Deleting keys already passed does not change what lies ahead of the token. */
  lemma AheadUntouched(objects: Objects, refs: set<string>, done: seq<string>, token: string,
                       dryRun: bool, stuck: set<string>)
    requires token == "" ==> done == []
    requires forall k :: k in done ==> !Lt(token, k)
    ensures Beyond(Listed(Swept(objects, refs, done, dryRun, stuck), ROOT), token) ==
            Beyond(Listed(objects, ROOT), token)
  {
  }

  /** The next key of a page comes after all keys seen so far. */
  lemma NextKeyIsNew(done: seq<string>, keys: seq<string>, i: nat)
    requires Increasing(done + keys) && i < |keys|
    ensures var seen := done + keys[..i];
            && done + keys[..i + 1] == seen + [keys[i]]
            && keys[i] in done + keys
            && forall k :: k in seen ==> k in done + keys && k != keys[i]
  {
    var seen, all := done + keys[..i], done + keys;
    assert done + keys[..i + 1] == seen + [keys[i]];
    assert all[|done| + i] == keys[i];
    forall k | k in seen ensures k in all && k != keys[i] {
      var j :| 0 <= j < |seen| && seen[j] == k;
      assert all[j] == k;
      LtAsymmetric(all[j], all[|done| + i]);
    }
  }

  /** Visiting the next key of a page: counters and store. */
  lemma VisitOne(objects: Objects, refs: set<string>, done: seq<string>, keys: seq<string>, i: nat, dryRun: bool,
                 stuck: set<string>, blind: set<string>)
    requires Increasing(done + keys) && i < |keys| && forall k :: k in done + keys ==> k in objects
    ensures var seen, more, key := done + keys[..i], done + keys[..i + 1], keys[i];
            && key in objects && (forall k :: k in seen ==> k in objects) && (forall k :: k in more ==> k in objects)
            && key in Swept(objects, refs, seen, dryRun, stuck)
            && var before, after := ReportFor(objects, refs, seen, blind), ReportFor(objects, refs, more, blind);
            && after == (if Orphan(refs, key)
                         then Report(before.scanned + 1, before.orphans + 1,
                                     before.freedBytes + if key in blind then 0 else |objects[key]|)
                         else before.(scanned := before.scanned + 1))
            && Swept(objects, refs, more, dryRun, stuck) ==
               if Orphan(refs, key) && !dryRun && key !in stuck
               then Swept(objects, refs, seen, dryRun, stuck) - {key} else Swept(objects, refs, seen, dryRun, stuck)
  {
    NextKeyIsNew(done, keys, i);
    CountOne(objects, refs, done + keys[..i], keys[i], blind);
    SweepOne(objects, refs, done + keys[..i], keys[i], dryRun, stuck);
  }

  /** An orphan: size first, if it can be read, then delete. */
  method Reclaim(b: Backend, key: string, dryRun: bool, unread: bool, fails: bool) returns (size: nat)
    requires b.Valid() && key in b.objects
    modifies b
    ensures b.Valid()
    ensures size == if unread then 0 else |old(b.objects)[key]|
    ensures b.objects == if dryRun || fails then old(b.objects) else old(b.objects) - {key}
  {
    var st := b.Stat(key, unread);
    size := if st.Ok? then st.value else 0;
    if !dryRun {
      var _ := b.Delete(key, fails);
    }
  }

  /** One page of the sweep. */
  method SweepPage(b: Backend, referenced: set<string>, keys: seq<string>, dryRun: bool, stuck: set<string>,
                   blind: set<string>, start: Report, ghost objects: Objects, ghost done: seq<string>)
    returns (report: Report)
    requires b.Valid()
    requires Increasing(done + keys)
    requires forall k :: k in done + keys ==> k in objects && Resolvable(k)
    requires start == ReportFor(objects, referenced, done, blind)
    requires b.objects == Swept(objects, referenced, done, dryRun, stuck)
    modifies b
    ensures b.Valid()
    ensures report == ReportFor(objects, referenced, done + keys, blind)
    ensures b.objects == Swept(objects, referenced, done + keys, dryRun, stuck)
  {
    var scanned, orphans, freedBytes := start.scanned, start.orphans, start.freedBytes;
    Takes(done, keys, "");
    for i := 0 to |keys|
      invariant b.Valid()
      invariant Report(scanned, orphans, freedBytes) == ReportFor(objects, referenced, done + keys[..i], blind)
      invariant b.objects == Swept(objects, referenced, done + keys[..i], dryRun, stuck)
    {
      var key := keys[i];
      ghost var seen := done + keys[..i];
      VisitOne(objects, referenced, done, keys, i, dryRun, stuck, blind);
      scanned := scanned + 1;
      if Orphan(referenced, key) {
        var size := Reclaim(b, key, dryRun, key in blind, key in stuck);
        freedBytes := freedBytes + size;
        orphans := orphans + 1;
      }
    }
    report := Report(scanned, orphans, freedBytes);
  }

  method ListBlobs(b: Backend, token: string, fails: bool) returns (r: Result<ListResult>)
    requires b.Valid()
    ensures r.Ok? <==> !fails
    ensures r.Ok? ==> r.value == PageOf(Listed(b.objects, ROOT), token, 1000)
  {
    RootListable();
    r := b.List(ROOT, token, 1000, fails);
  }

  /**
   The sweep visits every blob key exactly once although it deletes between pages:
   its report is that of the complete listing at the start, and what it leaves is
   what was there less the deletable orphans. A failed listing stops it early, and
   then it has deleted orphans only; a failed snapshot stops it before it begins.
   */
  method RunGC(store: Store, b: Backend, dryRun: bool, snapshotFails: bool, stuck: set<string>, blind: set<string>,
               failingPages: set<nat>)
    returns (r: Result<Report>)
    requires b.Valid()
    modifies b
    ensures b.Valid()
    ensures r.Ok? ==> r.value == ReportFor(old(b.objects), Digests(store.rows), BlobKeys(old(b.objects)), blind)
    ensures r.Ok? ==>
              b.objects == Swept(old(b.objects), Digests(store.rows), BlobKeys(old(b.objects)), dryRun, stuck)
    ensures snapshotFails ==> r.Err? && b.objects == old(b.objects)
    ensures !snapshotFails && failingPages == {} ==> r.Ok?
    ensures exists done :: done <= BlobKeys(old(b.objects)) &&
              b.objects == Swept(old(b.objects), Digests(store.rows), done, dryRun, stuck)
  {
    AtTheStart(b.objects, Digests(store.rows), dryRun, stuck, blind);
    var snapshot := Snapshot(store, snapshotFails);
    if snapshot.Err? { return Err(IoFailure); }
    var referenced := snapshot.value;
    ghost var objects := b.objects;
    ghost var done: seq<string> := [];
    var report := Report(0, 0, 0);
    var token := "";
    var page := 0;
    while true
      invariant b.Valid() && page >= 0
      invariant Underway(objects, referenced, done, token, dryRun, stuck, blind, report, b.objects)
      decreases |Beyond(Listed(objects, ROOT), token)|
    {
      var step := NextStep(b, referenced, token, report, dryRun, stuck, blind, page in failingPages, objects, done);
      if step.Err? { return Err(IoFailure); }
      done := done + step.value.keys;
      report := step.value.report;
      if step.value.next == "" { break; }
      token := step.value.next;
      page := page + 1;
    }
    r := Ok(report);
  }

  lemma {:induction false} AtTheStart(objects: Objects, refs: set<string>, dryRun: bool, stuck: set<string>,
                                      blind: set<string>)
    ensures Underway(objects, refs, [], "", dryRun, stuck, blind, Report(0, 0, 0), objects)
    ensures [] <= BlobKeys(objects)
  {
    PassedAtTheStart(objects);
    NothingSwept(objects, refs, dryRun, stuck);
  }

  lemma {:induction false} PassedAtTheStart(objects: Objects)
    ensures Passed(objects, [], "")
  {
    assert Beyond(Listed(objects, ROOT), "") == Listed(objects, ROOT);
    assert [] + Sorted(Listed(objects, ROOT)) == Sorted(Listed(objects, ROOT));
  }

  lemma {:induction false} NothingSwept(objects: Objects, refs: set<string>, dryRun: bool, stuck: set<string>)
    ensures Swept(objects, refs, [], dryRun, stuck) == objects
  {
    assert OrphansIn(refs, []) == [];
    assert Elems([]) - stuck == {};
  }

  datatype Step = Step(keys: seq<string>, next: string, report: Report)

  /** List one page and visit its keys. */
  method NextStep(b: Backend, referenced: set<string>, token: string, report: Report, dryRun: bool,
                  stuck: set<string>, blind: set<string>, listFails: bool, ghost objects: Objects,
                  ghost done: seq<string>)
    returns (r: Result<Step>)
    requires b.Valid() && forall k :: k in objects ==> Resolvable(k)
    requires Underway(objects, referenced, done, token, dryRun, stuck, blind, report, b.objects)
    modifies b
    ensures b.Valid()
    ensures r.Ok? <==> !listFails
    ensures r.Err? ==> b.objects == old(b.objects)
    ensures r.Ok? && r.value.next == "" ==>
              Finished(objects, referenced, done + r.value.keys, dryRun, stuck, blind, r.value.report, b.objects)
    ensures r.Ok? && r.value.next != "" ==>
              && Underway(objects, referenced, done + r.value.keys, r.value.next, dryRun, stuck, blind,
                          r.value.report, b.objects)
              && |Beyond(Listed(objects, ROOT), r.value.next)| < |Beyond(Listed(objects, ROOT), token)|
  {
    NextPage(objects, referenced, done, token, dryRun, stuck, b.objects);
    var listed := ListBlobs(b, token, listFails);
    if listed.Err? { return Err(IoFailure); }
    var p := listed.value;
    var after := SweepPage(b, referenced, p.keys, dryRun, stuck, blind, report, objects, done);
    r := Ok(Step(p.keys, p.next, after));
  }

  /** The loop's state: the keys up to the token are done, counted and swept. */
  ghost predicate Underway(objects: Objects, refs: set<string>, done: seq<string>, token: string, dryRun: bool,
                           stuck: set<string>, blind: set<string>, report: Report, current: Objects)
  {
    && Passed(objects, done, token)
    && report == ReportFor(objects, refs, done, blind)
    && current == Swept(objects, refs, done, dryRun, stuck)
  }

  ghost predicate Finished(objects: Objects, refs: set<string>, done: seq<string>, dryRun: bool,
                           stuck: set<string>, blind: set<string>, report: Report, current: Objects)
  {
    && done == BlobKeys(objects)
    && report == ReportFor(objects, refs, done, blind)
    && current == Swept(objects, refs, done, dryRun, stuck)
  }

  /** The keys of `done` are the listing up to and including the token. */
  ghost predicate Passed(objects: Objects, done: seq<string>, token: string) {
    && BlobKeys(objects) == done + Sorted(Beyond(Listed(objects, ROOT), token))
    && (token == "" ==> done == [])
    && (forall k :: k in done ==> k in objects && !Lt(token, k))
  }

  lemma RootListable()
    ensures !Contains(ROOT, "..")
  {
    if Contains(ROOT, "..") { DotsNeedADot(ROOT); }
  }

  /** What the sweep needs to know about its next page. */
  ghost predicate Fits(objects: Objects, done: seq<string>, token: string, p: ListResult) {
    && Increasing(done + p.keys)
    && (forall k :: k in done + p.keys ==> k in objects)
    && done + p.keys <= BlobKeys(objects)
    && (p.next == "" ==> done + p.keys == BlobKeys(objects))
    && (p.next != "" ==> Passed(objects, done + p.keys, p.next))
    && (p.next != "" ==> |Beyond(Listed(objects, ROOT), p.next)| < |Beyond(Listed(objects, ROOT), token)|)
  }

  lemma PageFits(objects: Objects, done: seq<string>, token: string, p: ListResult)
    requires "" !in objects
    requires Passed(objects, done, token)
    requires p == PageOf(Listed(objects, ROOT), token, 1000)
    ensures Fits(objects, done, token, p)
  {
    var s := Listed(objects, ROOT);
    var ahead := Sorted(Beyond(s, token));
    PageSplits(s, token, 1000);
    PageBelowToken(s, token, 1000);
    var rest := if p.next == "" then [] else Sorted(Beyond(s, p.next));
    PrefixOfAll(BlobKeys(objects), done, ahead, p.keys, rest);
    NotPast(done, p.keys, token, p.next);
  }

  lemma PrefixOfAll(all: seq<string>, done: seq<string>, ahead: seq<string>, keys: seq<string>, rest: seq<string>)
    requires all == done + ahead && ahead == keys + rest && Increasing(all)
    ensures all == (done + keys) + rest && done + keys <= all && Increasing(done + keys)
  {
    assert all == (done + keys) + rest;
    PrefixIncreasing(all, done + keys);
  }

  /** The next page of the half-swept store is the next stretch of the original listing. */
  lemma NextPage(objects: Objects, refs: set<string>, done: seq<string>, token: string,
                 dryRun: bool, stuck: set<string>, current: Objects)
    requires "" !in objects
    requires Passed(objects, done, token)
    requires current == Swept(objects, refs, done, dryRun, stuck)
    ensures Fits(objects, done, token, PageOf(Listed(current, ROOT), token, 1000))
  {
    AheadUntouched(objects, refs, done, token, dryRun, stuck);
    PageFits(objects, done, token, PageOf(Listed(objects, ROOT), token, 1000));
  }

  lemma PrefixIncreasing(all: seq<string>, part: seq<string>)
    requires part <= all && Increasing(all)
    ensures Increasing(part)
  {
    assert forall i :: 0 <= i < |part| ==> part[i] == all[i];
  }

  lemma NotPast(done: seq<string>, keys: seq<string>, token: string, next: string)
    requires token == "" ==> done == []
    requires forall k :: k in done ==> !Lt(token, k)
    requires next != "" ==> token == "" || Lt(token, next)
    requires next != "" ==> forall k :: k in keys ==> k == next || Lt(k, next)
    ensures next != "" ==> forall k :: k in done + keys ==> !Lt(next, k)
  {
    forall k | next != "" && k in done + keys ensures !Lt(next, k) {
      LtIrreflexive(next);
      if Lt(next, k) {
        if k in keys { LtAsymmetric(next, k); } else { LtTransitive(token, next, k); }
      }
    }
  }

  lemma SplitKey(fan: string, hex: string)
    requires '/' !in fan && '/' !in hex
    ensures Split("blobs/sha256/" + fan + "/" + hex, '/') == ["blobs", "sha256", fan, hex]
  {
    var tail := fan + ['/'] + hex;
    var mid := "sha256" + ['/'] + tail;
    assert "blobs/sha256/" + fan + "/" + hex == "blobs" + ['/'] + mid;
    SplitAtSeparator("blobs", '/', mid);
    SplitAtSeparator("sha256", '/', tail);
    SplitAtSeparator(fan, '/', hex);
    SplitWhole(hex, '/');
  }

  /** The sweep's reading of a key inverts `KeyFor`. */
  lemma KeyForInverted(d: string)
    requires ValidDigest(d)
    ensures DigestOfKey(KeyFor(d)) == Some(d)
    ensures InDir(ROOT, KeyFor(d))
  {
    KeyShape(d);
    SplitKey(d[7..9], d[7..]);
    assert d == d[..7] + d[7..];
    assert "sha256" + ":" == ALGORITHM;
    BlobsPrefix(KeyFor(d));
  }

  lemma BlobsPrefix(key: string)
    requires HasPrefix(key, ROOT)
    ensures InDir(ROOT, key)
  {
    DirectoryPrefix(ROOT);
  }

  /** The store after a complete run in which every delete worked. */
  ghost function AfterGC(objects: Objects, refs: set<string>): Objects {
    Swept(objects, refs, BlobKeys(objects), false, {})
  }

  /**
   A complete run leaves exactly the keys outside `blobs/`, the keys with fewer than
   four segments, and the keys whose digest is referenced; contents do not change.
   */
  lemma Survivors(objects: Objects, refs: set<string>, key: string)
    ensures key in AfterGC(objects, refs) <==>
            && key in objects
            && (!InDir(ROOT, key) || |Split(key, '/')| < 4 || DigestOfKey(key).value in refs)
    ensures key in AfterGC(objects, refs) ==> AfterGC(objects, refs)[key] == objects[key]
  {
    if key in objects && InDir(ROOT, key) { assert key in BlobKeys(objects); }
  }

  /** A blob survives exactly when it is referenced; staged uploads always survive. */
  lemma BlobSurvivesIffReferenced(objects: Objects, refs: set<string>, d: string)
    requires ValidDigest(d)
    ensures KeyFor(d) in AfterGC(objects, refs) <==> KeyFor(d) in objects && d in refs
  {
    KeyForInverted(d);
    Survivors(objects, refs, KeyFor(d));
  }

  lemma StagedSurvives(objects: Objects, refs: set<string>, nonce: string)
    requires LowerHex(nonce, 32)
    ensures TempKey(nonce) in AfterGC(objects, refs) <==> TempKey(nonce) in objects
  {
    var mid := "_uploads" + ['/'] + nonce;
    assert TempKey(nonce) == "blobs" + ['/'] + mid;
    assert '/' !in nonce;
    SplitAtSeparator("blobs", '/', mid);
    SplitAtSeparator("_uploads", '/', nonce);
    SplitWhole(nonce, '/');
    Survivors(objects, refs, TempKey(nonce));
  }

  /** Run alone, the collector keeps every row's blob. */
  lemma AloneKeepsRows(objects: Objects, rows: Rows)
    requires forall k :: k in rows ==> HasBlob(objects, rows[k].digest)
    ensures forall k :: k in rows ==> HasBlob(AfterGC(objects, Digests(rows)), rows[k].digest)
  {
    forall k | k in rows ensures HasBlob(AfterGC(objects, Digests(rows)), rows[k].digest) {
      BlobSurvivesIffReferenced(objects, Digests(rows), rows[k].digest);
    }
  }

  /** Keys that are visited and still there afterwards. */
  function Remaining(ks: seq<string>, gone: set<string>): (kept: seq<string>)
    ensures forall k :: k in kept <==> k in ks && k !in gone
  {
    if ks == [] then []
    else
      var before := Remaining(ks[..|ks| - 1], gone);
      var k := ks[|ks| - 1];
      assert ks == ks[..|ks| - 1] + [k];
      if k in gone then before else before + [k]
  }

  lemma {:induction false} RemainingIncreasing(ks: seq<string>, gone: set<string>)
    requires Increasing(ks)
    ensures Increasing(Remaining(ks, gone))
  {
    if ks != [] {
      var front, k := ks[..|ks| - 1], ks[|ks| - 1];
      PrefixIncreasing(ks, front);
      RemainingIncreasing(front, gone);
      var kept := Remaining(front, gone);
      forall i | 0 <= i < |kept| ensures Lt(kept[i], k) {
        assert kept[i] in kept && kept[i] in front;
        var j :| 0 <= j < |front| && front[j] == kept[i];
      }
    }
  }

  lemma {:induction false} RemainingSize(before: Objects, after: Objects, ks: seq<string>, gone: set<string>)
    requires forall k :: k in ks ==> k in before && (k !in gone ==> k in after && after[k] == before[k])
    ensures TotalSize(after, Remaining(ks, gone), {}) == TotalSize(before, ks, gone)
  {
    if ks != [] {
      var front, k := ks[..|ks| - 1], ks[|ks| - 1];
      assert k in ks && forall e :: e in front ==> e in ks;
      RemainingSize(before, after, front, gone);
      Takes(Remaining(front, gone), [], k);
    }
  }

  /** The bytes of a key are freed and counted, or not, by the two faults that it can have. */
  lemma {:induction false} SizesBalance(objects: Objects, refs: set<string>, ks: seq<string>, all: set<string>,
                                        stuck: set<string>, blind: set<string>)
    requires forall k :: k in ks ==> k in objects
    requires forall k :: k in ks ==> (k in all <==> Orphan(refs, k))
    ensures var os := OrphansIn(refs, ks);
            TotalSize(objects, ks, {}) + TotalSize(objects, os, blind + (all - stuck)) ==
            TotalSize(objects, ks, all - stuck) + TotalSize(objects, os, blind)
            + TotalSize(objects, os, all - (blind - stuck))
  {
    if ks != [] {
      var front, k := ks[..|ks| - 1], ks[|ks| - 1];
      assert k in ks && forall e :: e in front ==> e in ks;
      SizesBalance(objects, refs, front, all, stuck, blind);
      Takes(OrphansIn(refs, front), [], k);
    }
  }

  /**
   Bytes are conserved: what was stored under `blobs/` is what remains there plus what the
   report says was freed, but for orphans counted that could not be deleted, and orphans
   deleted whose size could not be read.
   */
  lemma FreedBytesAddUp(objects: Objects, refs: set<string>, stuck: set<string>, blind: set<string>)
    ensures var ks := BlobKeys(objects);
            var after := Swept(objects, refs, ks, false, stuck);
            var os := OrphansIn(refs, ks);
            var gone := Elems(os) - stuck;
            TotalSize(objects, ks, {}) + TotalSize(objects, os, blind + gone) ==
            TotalSize(after, BlobKeys(after), {}) + ReportFor(objects, refs, ks, blind).freedBytes
            + TotalSize(objects, os, Elems(os) - (blind - stuck))
  {
    var ks := BlobKeys(objects);
    var after := Swept(objects, refs, ks, false, stuck);
    var os := OrphansIn(refs, ks);
    var gone := Elems(os) - stuck;
    SizesBalance(objects, refs, ks, Elems(os), stuck, blind);
    RemainingIncreasing(ks, gone);
    SortedUnique(Remaining(ks, gone), Listed(after, ROOT));
    RemainingSize(objects, after, ks, gone);
  }

  /** With every stat and delete working, the report is what the store has lost. */
  lemma FreedBytesAreLost(objects: Objects, refs: set<string>)
    ensures var ks, after := BlobKeys(objects), AfterGC(objects, refs);
            TotalSize(objects, ks, {}) ==
            TotalSize(after, BlobKeys(after), {}) + ReportFor(objects, refs, ks, {}).freedBytes
  {
    var os := OrphansIn(refs, BlobKeys(objects));
    FreedBytesAddUp(objects, refs, {}, {});
    AllSkipped(objects, os, {} + (Elems(os) - {}));
    AllSkipped(objects, os, Elems(os) - ({} - {}));
  }

  lemma {:induction false} AllSkipped(objects: Objects, ks: seq<string>, skipped: set<string>)
    requires forall k :: k in ks ==> k in objects && k in skipped
    ensures TotalSize(objects, ks, skipped) == 0
  {
    if ks != [] {
      assert ks[|ks| - 1] in ks;
      AllSkipped(objects, ks[..|ks| - 1], skipped);
    }
  }
}
