/**
 Publishes that overlap. A publish loads the stored packument, writes its tarballs, merges,
 stores the merged document and then writes its row, and another publish can come between
 any two of these steps.
 */
module NpmOverlap {
  import opened Sequences
  import opened Storage
  import opened Cas
  import opened Registry
  import opened Npm
  import opened NpmRuns

  /** How far a publish of `body` has got, having loaded `base`. */
  datatype Phase = Merging(body: Packument, base: Packument) | Stored(body: Packument, base: Packument)

  datatype State = State(codec: Codec, repoId: string, world: World, publishes: map<nat, Phase>)

  datatype Step =
    | Begin(u: nat, body: Packument, load: LoadFaults)
    | Tarball(u: nat, filename: string, bytes: Bytes, env: PutEnv)
    | Store(u: nat, nonce: string, faults: PutFaults)
    | Record(u: nat, ok: bool, stamp: Stamp)
    | End(u: nat)

  predicate Enabled(s: State, step: Step) {
    match step
    case Begin(u, body, _) => u !in s.publishes && body.name != ""
    case Tarball(u, _, _, _) => u in s.publishes && s.publishes[u].Merging?
    case Store(u, _, _) => u in s.publishes && s.publishes[u].Merging?
    case Record(u, _, _) => u in s.publishes && s.publishes[u].Stored?
    // Refused, failed or crashed, at any point.
    case End(u) => u in s.publishes
  }

  function Document(p: Phase): Packument {
    Merged(p.base, p.body)
  }

  function Text(s: State, p: Phase): Bytes {
    s.codec.marshal(Document(p))
  }

  function Apply(s: State, step: Step): State
    requires Enabled(s, step)
  {
    match step
    case Begin(u, body, load) =>
      s.(publishes := s.publishes[u := Merging(body, Loaded(s.codec, s.world, s.repoId, body.name, load))])
    case Tarball(u, filename, bytes, env) =>
      var path := TarballPath(s.publishes[u].body.name, filename);
      var (w, ok) := StoreOne(s.world, s.repoId, path, bytes, OCTETS, env);
      s.(world := w, publishes := if ok then s.publishes else s.publishes - {u})
    // A conflict ends the publish.
    case Store(u, nonce, faults) =>
      var p := s.publishes[u];
      if !Disjoint(p.base.versions, p.body.versions) then s.(publishes := s.publishes - {u}) else
      var (w, r) := PutBlob(s.world, Text(s, p), nonce, faults);
      s.(world := w, publishes := if r.Ok? then s.publishes[u := Stored(p.body, p.base)] else s.publishes - {u})
    case Record(u, ok, stamp) =>
      s.(world := RowWritten(s, s.publishes[u], ok, stamp), publishes := s.publishes - {u})
    case End(u) => s.(publishes := s.publishes - {u})
  }

  function RowWritten(s: State, p: Phase, ok: bool, stamp: Stamp): World {
    PutRow(s.world, ok, stamp, s.repoId, PackumentPath(p.body.name), DigestOf(Text(s, p)), |Text(s, p)|, JSON)
  }

  // ---------------------------------------------------------------- invariant

  ghost predicate PhaseOk(s: State, p: Phase, texts: iset<Bytes>) {
    p.Stored? ==>
      && Disjoint(p.base.versions, p.body.versions)
      && Text(s, p) in texts && RoundTrips(s.codec, p.body.name, Document(p))
      && HasBlob(s.world.objects, DigestOf(Text(s, p)))
  }

  /** `texts` are byte strings without collisions, among them all that is stored. */
  ghost predicate Inv(s: State, texts: iset<Bytes>) {
    && Sound(s.world) && CollisionFree(texts) && BlobsWithin(s.world.objects, texts)
    && forall u :: u in s.publishes ==> PhaseOk(s, s.publishes[u], texts)
  }

  /** What the step stores is among them, and a merged document survives JSON. */
  ghost predicate Clean(s: State, step: Step, texts: iset<Bytes>)
    requires Enabled(s, step)
  {
    && (step.Tarball? ==> step.bytes in texts)
    && (step.Store? && Disjoint(s.publishes[step.u].base.versions, s.publishes[step.u].body.versions) ==>
          var p := s.publishes[step.u];
          Text(s, p) in texts && RoundTrips(s.codec, p.body.name, Document(p)))
  }

  ghost function Versions(s: State, pkg: string): map<string, string> {
    Load(s.codec, s.world, s.repoId, pkg).versions
  }

  /** Storing more blobs leaves every publish as it was. */
  lemma PhasesStayOk(s: State, w: World, texts: iset<Bytes>)
    requires Inv(s, texts) && BlobsKept(s.world, w)
    ensures forall u :: u in s.publishes ==> PhaseOk(s.(world := w), s.publishes[u], texts)
  {
    forall u | u in s.publishes ensures PhaseOk(s.(world := w), s.publishes[u], texts) {
      assert PhaseOk(s, s.publishes[u], texts);
    }
  }

  lemma InvPhases(s: State, publishes: map<nat, Phase>, texts: iset<Bytes>)
    requires Sound(s.world) && CollisionFree(texts) && BlobsWithin(s.world.objects, texts)
    requires forall u :: u in publishes ==> PhaseOk(s, publishes[u], texts)
    ensures Inv(s.(publishes := publishes), texts)
  {
    var t := s.(publishes := publishes);
    forall u | u in t.publishes ensures PhaseOk(t, t.publishes[u], texts) {
      assert PhaseOk(s, publishes[u], texts);
    }
  }

  lemma TarballKeepsInv(s: State, step: Step, texts: iset<Bytes>, pkg: string)
    requires Inv(s, texts) && step.Tarball? && Enabled(s, step) && Clean(s, step, texts)
    ensures Inv(Apply(s, step), texts)
    ensures Load(s.codec, Apply(s, step).world, s.repoId, pkg) == Load(s.codec, s.world, s.repoId, pkg)
  {
    var path := TarballPath(s.publishes[step.u].body.name, step.filename);
    var (w, ok) := StoreOne(s.world, s.repoId, path, step.bytes, OCTETS, step.env);
    StoreOneSound(s.world, s.repoId, path, step.bytes, OCTETS, step.env);
    StoreOneStores(s.world, s.repoId, path, step.bytes, OCTETS, step.env, texts);
    StoreOneRow(s.world, s.repoId, path, step.bytes, OCTETS, step.env);
    PathsDiffer(pkg, s.publishes[step.u].body.name, step.filename);
    SameDocumentLoads(s.codec, s.world, w, s.repoId, pkg);
    PhasesStayOk(s, w, texts);
    InvPhases(s.(world := w), Apply(s, step).publishes, texts);
  }

  lemma StoreKeepsInv(s: State, step: Step, texts: iset<Bytes>, pkg: string)
    requires Inv(s, texts) && step.Store? && Enabled(s, step) && Clean(s, step, texts)
    ensures Inv(Apply(s, step), texts)
    ensures Load(s.codec, Apply(s, step).world, s.repoId, pkg) == Load(s.codec, s.world, s.repoId, pkg)
  {
    var p := s.publishes[step.u];
    if Disjoint(p.base.versions, p.body.versions) {
      var (w, r) := PutBlob(s.world, Text(s, p), step.nonce, step.faults);
      PutBlobSound(s.world, Text(s, p), step.nonce, step.faults);
      PutStoresTheBytes(s.world.objects, Text(s, p), step.nonce, step.faults, texts);
      SameDocumentLoads(s.codec, s.world, w, s.repoId, pkg);
      PhasesStayOk(s, w, texts);
      InvPhases(s.(world := w), Apply(s, step).publishes, texts);
    } else {
      InvPhases(s, Apply(s, step).publishes, texts);
    }
  }

  lemma RecordKeepsInv(s: State, step: Step, texts: iset<Bytes>, pkg: string)
    requires Inv(s, texts) && step.Record? && Enabled(s, step)
    ensures Inv(Apply(s, step), texts)
    ensures var p := s.publishes[step.u];
            Load(s.codec, Apply(s, step).world, s.repoId, pkg) ==
            if step.ok && p.body.name == pkg then Document(p) else Load(s.codec, s.world, s.repoId, pkg)
  {
    var p := s.publishes[step.u];
    var text, w := Text(s, p), RowWritten(s, p, step.ok, step.stamp);
    assert PhaseOk(s, p, texts);
    PutRowSoundIff(s.world, step.ok, step.stamp, s.repoId, PackumentPath(p.body.name), DigestOf(text), |text|, JSON);
    assert s.world.objects[KeyFor(DigestOf(text))] == text;
    PathsDiffer(p.body.name, pkg, "");
    PathsDiffer(pkg, p.body.name, "");
    if !(step.ok && p.body.name == pkg) { SameDocumentLoads(s.codec, s.world, w, s.repoId, pkg); }
    PhasesStayOk(s, w, texts);
    InvPhases(s.(world := w), Apply(s, step).publishes, texts);
  }

  /** Every step keeps the stores in agreement, and only writing a packument's row changes what is stored for it. */
  lemma StepKeepsInv(s: State, step: Step, texts: iset<Bytes>, pkg: string)
    requires Inv(s, texts) && Enabled(s, step) && Clean(s, step, texts)
    ensures Inv(Apply(s, step), texts)
    ensures Load(s.codec, Apply(s, step).world, s.repoId, pkg) ==
            if step.Record? && step.ok && s.publishes[step.u].body.name == pkg then Document(s.publishes[step.u])
            else Load(s.codec, s.world, s.repoId, pkg)
  {
    match step
    case Tarball(_, _, _, _) => TarballKeepsInv(s, step, texts, pkg);
    case Store(_, _, _) => StoreKeepsInv(s, step, texts, pkg);
    case Record(_, _, _) => RecordKeepsInv(s, step, texts, pkg);
    case _ => InvPhases(s, Apply(s, step).publishes, texts);
  }

  // ---------------------------------------------------------------- whether versions are kept

  /**
   The row is written although something is published by now that the publish neither loaded
   nor brings itself: others were faster, or loading failed.
   */
  ghost predicate Overtaken(s: State, step: Step, pkg: string) {
    && step.Record? && Enabled(s, step) && step.ok && s.publishes[step.u].body.name == pkg
    && !Covered(Versions(s, pkg), s.publishes[step.u].base.versions, s.publishes[step.u].body.versions)
  }

  /** A step takes away or changes a published version exactly if it is of that kind. */
  lemma StepKeepsVersionsIff(s: State, step: Step, texts: iset<Bytes>, pkg: string)
    requires Inv(s, texts) && Enabled(s, step) && Clean(s, step, texts)
    ensures Inv(Apply(s, step), texts)
    ensures Keeps(Versions(s, pkg), Versions(Apply(s, step), pkg)) <==> !Overtaken(s, step, pkg)
  {
    StepKeepsInv(s, step, texts, pkg);
    if step.Record? {
      var p := s.publishes[step.u];
      assert PhaseOk(s, p, texts);
      MergedKeepsIff(Versions(s, pkg), p.base, p.body);
    }
  }

  // ---------------------------------------------------------------- whole runs

  predicate Runs(s: State, steps: seq<Step>)
    decreases |steps|
  {
    steps == [] || (Enabled(s, steps[0]) && Runs(Apply(s, steps[0]), steps[1..]))
  }

  function After(s: State, steps: seq<Step>): State
    requires Runs(s, steps)
    decreases |steps|
  {
    if steps == [] then s else After(Apply(s, steps[0]), steps[1..])
  }

  ghost predicate AllClean(s: State, steps: seq<Step>, texts: iset<Bytes>)
    requires Runs(s, steps)
    decreases |steps|
  {
    steps == [] || (Clean(s, steps[0], texts) && AllClean(Apply(s, steps[0]), steps[1..], texts))
  }

  /** No step of the run takes a version of the package away or changes it. */
  ghost predicate AlwaysKept(s: State, steps: seq<Step>, pkg: string)
    requires Runs(s, steps)
    decreases |steps|
  {
    steps == [] ||
    (Keeps(Versions(s, pkg), Versions(Apply(s, steps[0]), pkg)) && AlwaysKept(Apply(s, steps[0]), steps[1..], pkg))
  }

  ghost predicate NeverOvertaken(s: State, steps: seq<Step>, pkg: string)
    requires Runs(s, steps)
    decreases |steps|
  {
    steps == [] || (!Overtaken(s, steps[0], pkg) && NeverOvertaken(Apply(s, steps[0]), steps[1..], pkg))
  }

  /** Over every interleaving the published versions of a package stay if and only if no publish of it is overtaken. */
  lemma {:induction false} RunKeepsVersionsIff(s: State, steps: seq<Step>, texts: iset<Bytes>, pkg: string)
    requires Inv(s, texts) && Runs(s, steps) && AllClean(s, steps, texts)
    ensures AlwaysKept(s, steps, pkg) <==> NeverOvertaken(s, steps, pkg)
    decreases |steps|
  {
    if steps != [] {
      StepKeepsVersionsIff(s, steps[0], texts, pkg);
      RunKeepsVersionsIff(Apply(s, steps[0]), steps[1..], texts, pkg);
    }
  }

  // ---------------------------------------------------------------- not overlapping

  /** Every publish of the package under way has loaded all that is published by now. */
  ghost predicate UpToDate(s: State, pkg: string) {
    forall u :: u in s.publishes && s.publishes[u].body.name == pkg ==>
      Keeps(Versions(s, pkg), s.publishes[u].base.versions)
  }

  /**
   The step loads nothing although it should, or writes the package's row while another
   publish of it is under way.
   */
  predicate Intrudes(s: State, step: Step, pkg: string) {
    || (step.Begin? && step.body.name == pkg && (step.load.row || step.load.blob))
    || (step.Record? && step.ok && step.u in s.publishes && s.publishes[step.u].body.name == pkg
        && exists v :: v in s.publishes && v != step.u && s.publishes[v].body.name == pkg)
  }

  predicate KeptApart(s: State, steps: seq<Step>, pkg: string)
    requires Runs(s, steps)
    decreases |steps|
  {
    steps == [] || (!Intrudes(s, steps[0], pkg) && KeptApart(Apply(s, steps[0]), steps[1..], pkg))
  }

  lemma StepKeepsUpToDate(s: State, step: Step, texts: iset<Bytes>, pkg: string)
    requires Inv(s, texts) && Enabled(s, step) && Clean(s, step, texts)
    requires UpToDate(s, pkg) && !Intrudes(s, step, pkg)
    ensures UpToDate(Apply(s, step), pkg) && !Overtaken(s, step, pkg)
  {
    StepKeepsInv(s, step, texts, pkg);
    var t := Apply(s, step);
    forall u | u in t.publishes && t.publishes[u].body.name == pkg
      ensures Keeps(Versions(t, pkg), t.publishes[u].base.versions)
    {
      BaseStays(s, step, u);
    }
  }

  lemma BaseStays(s: State, step: Step, u: nat)
    requires Enabled(s, step) && u in Apply(s, step).publishes
    ensures var p := Apply(s, step).publishes[u];
            && (u in s.publishes ==> p.body == s.publishes[u].body && p.base == s.publishes[u].base)
            && (u !in s.publishes ==>
                  step.Begin? && step.u == u && p.body == step.body
                  && p.base == Loaded(s.codec, s.world, s.repoId, step.body.name, step.load))
            && (step.Record? ==> u != step.u)
  {
  }

  /**
   If every load works and no two publishes of the package overlap, from the load of the one
   to its row, then in every interleaving what is published of it is published forever.
   */
  lemma {:induction false} KeptApartKeepsVersions(s: State, steps: seq<Step>, texts: iset<Bytes>, pkg: string)
    requires Inv(s, texts) && Runs(s, steps) && AllClean(s, steps, texts)
    requires UpToDate(s, pkg) && KeptApart(s, steps, pkg)
    ensures NeverOvertaken(s, steps, pkg) && Keeps(Versions(s, pkg), Versions(After(s, steps), pkg))
    decreases |steps|
  {
    if steps != [] {
      StepKeepsUpToDate(s, steps[0], texts, pkg);
      StepKeepsVersionsIff(s, steps[0], texts, pkg);
      KeptApartKeepsVersions(Apply(s, steps[0]), steps[1..], texts, pkg);
    }
  }

  /**
   Two publishes of one package that both loaded what is stored: the second to write its row
   keeps what the first has published if and only if it brings all of that itself.
   */
  lemma SecondRowKeepsIff(s: State, u: nat, v: nat, stamp: Stamp, texts: iset<Bytes>, pkg: string)
    requires Inv(s, texts) && UpToDate(s, pkg) && u != v && u in s.publishes && v in s.publishes
    requires s.publishes[u].Stored? && s.publishes[v].Stored?
    requires s.publishes[u].body.name == pkg && s.publishes[v].body.name == pkg
    requires s.publishes[u].base == s.publishes[v].base == Load(s.codec, s.world, s.repoId, pkg)
    ensures var s1 := Apply(s, Record(u, true, stamp));
            && Enabled(s1, Record(v, true, stamp))
            && (Keeps(Versions(s1, pkg), Versions(Apply(s1, Record(v, true, stamp)), pkg)) <==>
                  Keeps(s.publishes[u].body.versions, s.publishes[v].body.versions))
  {
    var first, second := Record(u, true, stamp), Record(v, true, stamp);
    var s1 := Apply(s, first);
    assert PhaseOk(s, s.publishes[u], texts) && PhaseOk(s, s.publishes[v], texts);
    StepKeepsInv(s, first, texts, pkg);
    StepKeepsVersionsIff(s1, second, texts, pkg);
    CoveredIff(s.publishes[u].base.versions, s.publishes[u].body.versions, s.publishes[v].body.versions);
  }

  lemma CoveredIff(base: map<string, string>, first: map<string, string>, second: map<string, string>)
    requires Disjoint(base, first)
    ensures Covered(base + first, base, second) <==> Keeps(first, second)
  {
    forall v | v in first ensures v in base + first && v !in base && (base + first)[v] == first[v] {
    }
  }

  lemma {:induction false} RunCons(s: State, step: Step, rest: seq<Step>)
    requires Enabled(s, step) && Runs(Apply(s, step), rest)
    ensures Runs(s, [step] + rest) && After(s, [step] + rest) == After(Apply(s, step), rest)
  {
    Joins([step], rest);
  }

  lemma {:induction false} RunThen(s: State, a: seq<Step>, b: seq<Step>)
    requires Runs(s, a) && Runs(After(s, a), b)
    ensures Runs(s, a + b) && After(s, a + b) == After(After(s, a), b)
    decreases |a|
  {
    if a == [] {
      assert a + b == b;
    } else {
      RunThen(Apply(s, a[0]), a[1..], b);
      RunCons(s, a[0], a[1..] + b);
      ConsAppend(a, b);
    }
  }

  lemma RunOne(s: State, step: Step)
    requires Enabled(s, step)
    ensures Runs(s, [step]) && After(s, [step]) == Apply(s, step)
  {
    RunCons(s, step, []);
    assert [step] + [] == [step];
  }

  /** A publish that finds its versions new stores the merge and is ready to write the row. */
  lemma StoreWorks(s: State, u: nat, nonce: string, texts: iset<Bytes>, pkg: string)
    requires Inv(s, texts) && u in s.publishes && s.publishes[u].Merging?
    requires Disjoint(s.publishes[u].base.versions, s.publishes[u].body.versions)
    requires Clean(s, Store(u, nonce, NO_FAULTS), texts)
    ensures var t := Apply(s, Store(u, nonce, NO_FAULTS));
            && Inv(t, texts) && t.codec == s.codec && t.repoId == s.repoId
            && t.publishes == s.publishes[u := Stored(s.publishes[u].body, s.publishes[u].base)]
            && Load(s.codec, t.world, s.repoId, pkg) == Load(s.codec, s.world, s.repoId, pkg)
  {
    StoreKeepsInv(s, Store(u, nonce, NO_FAULTS), texts, pkg);
  }

  /** Both publishes have begun, and nothing else has happened. */
  lemma BothBegin(s: State, u: nat, p: Packument, v: nat, q: Packument, texts: iset<Bytes>)
    requires Inv(s, texts) && u != v && u !in s.publishes && v !in s.publishes && p.name == q.name != ""
    ensures var a, b, base := Begin(u, p, LOADS), Begin(v, q, LOADS), Load(s.codec, s.world, s.repoId, p.name);
            var t := s.(publishes := s.publishes[u := Merging(p, base)][v := Merging(q, base)]);
            && Enabled(s, a) && Enabled(Apply(s, a), b) && Apply(Apply(s, a), b) == t && Inv(t, texts)
  {
    var a := Begin(u, p, LOADS);
    StepKeepsInv(s, a, texts, p.name);
    StepKeepsInv(Apply(s, a), Begin(v, q, LOADS), texts, p.name);
  }

  /** Both load and both store the merged document. */
  function BothStore(u: nat, p: Packument, v: nat, q: Packument, nonces: (string, string)): seq<Step> {
    [Begin(u, p, LOADS)] + ([Begin(v, q, LOADS)] + ([Store(u, nonces.0, NO_FAULTS)] + [Store(v, nonces.1, NO_FAULTS)]))
  }

  /** Both are new to what is stored, and their merges with it survive JSON. */
  ghost predicate Mergeable(s: State, p: Packument, texts: iset<Bytes>) {
    var base := Load(s.codec, s.world, s.repoId, p.name);
    && p.name != "" && Disjoint(base.versions, p.versions)
    && s.codec.marshal(Merged(base, p)) in texts && RoundTrips(s.codec, p.name, Merged(base, p))
  }

  lemma {:induction false} RunTwice(s: State, a: Step, b: Step, rest: seq<Step>)
    requires Enabled(s, a) && Enabled(Apply(s, a), b) && Runs(Apply(Apply(s, a), b), rest)
    ensures Runs(s, [a] + ([b] + rest)) && After(s, [a] + ([b] + rest)) == After(Apply(Apply(s, a), b), rest)
  {
    RunCons(Apply(s, a), b, rest);
    RunCons(s, a, [b] + rest);
  }

  /** From two publishes that have begun to two that have stored. */
  lemma {:induction false} BothStored(s: State, u: nat, v: nat, nonces: (string, string), texts: iset<Bytes>)
    requires Inv(s, texts) && u != v && u in s.publishes && v in s.publishes
    requires s.publishes[u].Merging? && s.publishes[v].Merging?
    requires var base := Load(s.codec, s.world, s.repoId, s.publishes[u].body.name);
             s.publishes[v].body.name == s.publishes[u].body.name && s.publishes[u].base == s.publishes[v].base == base
    requires Mergeable(s, s.publishes[u].body, texts) && Mergeable(s, s.publishes[v].body, texts)
    ensures var pkg := s.publishes[u].body.name;
            var base := Load(s.codec, s.world, s.repoId, pkg);
            var c, d := Store(u, nonces.0, NO_FAULTS), Store(v, nonces.1, NO_FAULTS);
            && Enabled(Apply(s, c), d)
            && var t := Apply(Apply(s, c), d);
            && Inv(t, texts) && t.codec == s.codec && t.repoId == s.repoId
            && t.publishes ==
               s.publishes[u := Stored(s.publishes[u].body, base)][v := Stored(s.publishes[v].body, base)]
            && Load(s.codec, t.world, s.repoId, pkg) == base
  {
    StoreWorks(s, u, nonces.0, texts, s.publishes[u].body.name);
    StoreWorks(Apply(s, Store(u, nonces.0, NO_FAULTS)), v, nonces.1, texts, s.publishes[u].body.name);
  }

  lemma Overwritten<K, V>(m: map<K, V>, u: K, a: V, a': V, v: K, b: V, b': V)
    requires u != v
    ensures m[u := a][v := b][u := a'][v := b'] == m[u := a'][v := b']
    ensures m[u := a][v := b][u] == a && m[u := a][v := b][v] == b
  {
  }

  lemma {:induction false} BothStoreWork(s: State, u: nat, p: Packument, v: nat, q: Packument,
                                         nonces: (string, string), texts: iset<Bytes>)
    requires Inv(s, texts) && u != v && u !in s.publishes && v !in s.publishes && p.name == q.name
    requires Mergeable(s, p, texts) && Mergeable(s, q, texts)
    ensures var steps, base := BothStore(u, p, v, q, nonces), Load(s.codec, s.world, s.repoId, p.name);
            && Runs(s, steps) && Inv(After(s, steps), texts)
            && After(s, steps).codec == s.codec && After(s, steps).repoId == s.repoId
            && After(s, steps).publishes == s.publishes[u := Stored(p, base)][v := Stored(q, base)]
            && Load(s.codec, After(s, steps).world, s.repoId, p.name) == base
  {
    var base := Load(s.codec, s.world, s.repoId, p.name);
    var begun := s.(publishes := s.publishes[u := Merging(p, base)][v := Merging(q, base)]);
    var c, d := Store(u, nonces.0, NO_FAULTS), Store(v, nonces.1, NO_FAULTS);
    BothBegin(s, u, p, v, q, texts);
    BothStored(begun, u, v, nonces, texts);
    Overwritten(s.publishes, u, Merging(p, base), Stored(p, base), v, Merging(q, base), Stored(q, base));
    RunOne(Apply(begun, c), d);
    RunCons(begun, c, [d]);
    RunTwice(s, Begin(u, p, LOADS), Begin(v, q, LOADS), [c] + [d]);
  }

  /**
   When two publishes of new versions race, both are accepted, but the package ends up with
   what was there and what the second brings: the versions of the first are lost unless the
   second brings them, too.
   */
  lemma RaceKeepsIff(s: State, u: nat, p: Packument, v: nat, q: Packument, nonces: (string, string), stamp: Stamp,
                     texts: iset<Bytes>)
    requires Inv(s, texts) && u != v && u !in s.publishes && v !in s.publishes && p.name == q.name
    requires Mergeable(s, p, texts) && Mergeable(s, q, texts)
    ensures var steps := BothStore(u, p, v, q, nonces) + ([Record(u, true, stamp)] + [Record(v, true, stamp)]);
            && Runs(s, steps)
            && Load(s.codec, After(s, steps).world, s.repoId, p.name) ==
               Merged(Load(s.codec, s.world, s.repoId, p.name), q)
            && (Keeps(p.versions, Versions(After(s, steps), p.name)) <==> Keeps(p.versions, q.versions))
  {
    var base := Load(s.codec, s.world, s.repoId, p.name);
    var first, second := Record(u, true, stamp), Record(v, true, stamp);
    BothStoreWork(s, u, p, v, q, nonces, texts);
    var s4 := After(s, BothStore(u, p, v, q, nonces));
    StepKeepsInv(s4, first, texts, p.name);
    var s5 := Apply(s4, first);
    StepKeepsInv(s5, second, texts, p.name);
    RunOne(s5, second);
    RunCons(s4, first, [second]);
    RunThen(s, BothStore(u, p, v, q, nonces), [first] + [second]);
    FirstKeptIff(base.versions, p.versions, q.versions);
  }

  lemma FirstKeptIff(base: map<string, string>, first: map<string, string>, second: map<string, string>)
    requires Disjoint(base, first)
    ensures Keeps(first, base + second) <==> Keeps(first, second)
  {
    forall v | v in first ensures v !in base && (v in base + second <==> v in second) {
    }
  }

  // ---------------------------------------------------------------- one publish alone

  /** The steps that write a publish's tarballs, up to the first that cannot be written. */
  function TarballSteps(w: World, repoId: string, pkg: string, u: nat, atts: seq<Attachment>): seq<Step> {
    if atts == [] then []
    else
      var before := TarballSteps(w, repoId, pkg, u, atts[..|atts| - 1]);
      var a := atts[|atts| - 1];
      if !StoreTarballs(w, repoId, pkg, atts[..|atts| - 1]).1.Created? then before
      else if a.data.None? then before + [End(u)]
      else before + [Tarball(u, a.filename, a.data.value, a.env)]
  }

  lemma {:induction false} TarballsAlone(s: State, u: nat, pkg: string, atts: seq<Attachment>)
    requires u in s.publishes && s.publishes[u].Merging? && s.publishes[u].body.name == pkg
    ensures var steps := TarballSteps(s.world, s.repoId, pkg, u, atts);
            var (w, out) := StoreTarballs(s.world, s.repoId, pkg, atts);
            && Runs(s, steps)
            && After(s, steps) == s.(world := w, publishes := if out.Created? then s.publishes else s.publishes - {u})
  {
    if atts != [] {
      var front, a := atts[..|atts| - 1], atts[|atts| - 1];
      var before := TarballSteps(s.world, s.repoId, pkg, u, front);
      TarballsAlone(s, u, pkg, front);
      if StoreTarballs(s.world, s.repoId, pkg, front).1.Created? {
        var step := if a.data.None? then End(u) else Tarball(u, a.filename, a.data.value, a.env);
        RunOne(After(s, before), step);
        RunThen(s, before, [step]);
      }
    }
  }

  /** What follows the tarballs. */
  function MergeSteps(s: State, u: nat, r: Request): seq<Step>
    requires u in s.publishes
  {
    var p := s.publishes[u];
    [Store(u, r.env.nonce, r.env.faults)] +
    if Disjoint(p.base.versions, p.body.versions) && PutBlob(s.world, Text(s, p), r.env.nonce, r.env.faults).1.Ok?
    then [Record(u, r.env.rowOk, r.env.stamp)] else []
  }

  lemma {:induction false} MergeAlone(s: State, u: nat, r: Request)
    requires u in s.publishes && s.publishes[u].Merging?
    ensures var p := s.publishes[u];
            && Runs(s, MergeSteps(s, u, r))
            && After(s, MergeSteps(s, u, r)) == s.(publishes := s.publishes - {u}, world :=
                 if !Disjoint(p.base.versions, p.body.versions) then s.world
                 else StoreOne(s.world, s.repoId, PackumentPath(p.body.name), Text(s, p), JSON, r.env).0)
  {
    var store, record := Store(u, r.env.nonce, r.env.faults), Record(u, r.env.rowOk, r.env.stamp);
    var t := Apply(s, store);
    if u in t.publishes {
      assert t.publishes - {u} == s.publishes - {u};
      RunOne(t, record);
      RunCons(s, store, [record]);
    } else {
      RunCons(s, store, []);
    }
  }

  /** A publish that passes the checks of its body, as steps one after the other. */
  function Alone(s: State, u: nat, r: Request): seq<Step>
    requires r.body.Some?
  {
    var begun := s.(publishes := s.publishes[u := Merging(r.body.value, Base(s.codec, s.world, s.repoId, r))]);
    var (w, out) := StoreTarballs(s.world, s.repoId, r.pkg, r.attachments);
    [Begin(u, r.body.value, r.load)] + (TarballSteps(s.world, s.repoId, r.pkg, u, r.attachments) +
    if out.Created? then MergeSteps(begun.(world := w), u, r) else [])
  }

  /** A publish whose steps follow one another does what the sequential publish does, whatever fails. */
  lemma {:induction false} AloneIsPublish(s: State, u: nat, r: Request)
    requires u !in s.publishes && r.body.Some? && r.body.value.name == r.pkg != ""
    ensures Runs(s, Alone(s, u, r))
    ensures After(s, Alone(s, u, r)) == s.(world := Publish(s.codec, s.world, s.repoId, r).0)
  {
    var begin := Begin(u, r.body.value, r.load);
    var begun := Apply(s, begin);
    var tarballs := TarballSteps(s.world, s.repoId, r.pkg, u, r.attachments);
    var (w, out) := StoreTarballs(s.world, s.repoId, r.pkg, r.attachments);
    var stored := begun.(world := w);
    var rest := if out.Created? then MergeSteps(stored, u, r) else [];
    assert begun.publishes - {u} == s.publishes;
    TarballsAlone(begun, u, r.pkg, r.attachments);
    if out.Created? { MergeAlone(stored, u, r); }
    RunThen(begun, tarballs, rest);
    RunCons(s, begin, tarballs + rest);
  }
}
