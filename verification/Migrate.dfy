/**
 The migration runner: one transaction per migration, versions recorded in the
 `schema_migrations` table, and every statement allowed to fail.
 */
module Migrate {
  import opened Like
  import opened Wrappers

  datatype Migration = Migration(version: int, name: string, body: string)

  /** `table` maps a version to its dirty flag; `ran` lists the migrations whose transactions have committed. */
  datatype Schema = Schema(table: map<int, bool>, ran: seq<Migration>)

  /**
   How the transaction of one migration goes. After a failing body the version is
   marked dirty, if that works; a commit that reports an error may have landed.
   */
  datatype Fate = Smooth | BeginFails | BodyFails(marked: bool) | InsertFails | CommitFails(landed: bool)

  /**
   One call of `ApplyMigrations`: the sorted list, absent when there is none to be had;
   the database; whether its statements that make and read the version table went through,
   as far as that is open; and the fate of the i-th migration.
   */
  datatype Call = Call(migs: Option<seq<Migration>>, dialect: Dialect, tableOk: bool, fates: nat -> Fate)

  /** The query for the applied versions compares the boolean flag with 0, which PostgreSQL refuses. */
  predicate Ready(c: Call) {
    c.tableOk && c.dialect.Sqlite?
  }

  function Applied(s: Schema): set<int> {
    set v | v in s.table && !s.table[v]
  }

  function Committed(s: Schema, m: Migration): Schema {
    Schema(s.table[m.version := false], s.ran + [m])
  }

  /** The version is inserted with a plain `INSERT`: any row it has already, clean or dirty, is a conflict. */
  function ApplyOne(s: Schema, m: Migration, fate: Fate): (Schema, bool) {
    match fate
    case BeginFails => (s, false)
    case BodyFails(marked) => (if marked then s.(table := s.table[m.version := true]) else s, false)
    case InsertFails => (s, false)
    case CommitFails(landed) => (if landed && m.version !in s.table then Committed(s, m) else s, false)
    case Smooth => if m.version in s.table then (s, false) else (Committed(s, m), true)
  }

  /** The loop from the i-th migration on. */
  function ApplyFrom(s: Schema, applied: set<int>, migs: seq<Migration>, fates: nat -> Fate, i: nat): (Schema, bool)
    decreases |migs| - i
  {
    if i >= |migs| then (s, true)
    else if migs[i].version in applied then ApplyFrom(s, applied, migs, fates, i + 1)
    else
      var (s1, ok) := ApplyOne(s, migs[i], fates(i));
      if ok then ApplyFrom(s1, applied, migs, fates, i + 1) else (s1, false)
  }

  function Apply(s: Schema, c: Call): (Schema, bool) {
    if c.migs.None? || c.migs.value == [] || !Ready(c) then (s, false)
    else ApplyFrom(s, Applied(s), c.migs.value, c.fates, 0)
  }

  class Database {
    var table: map<int, bool>
    var ran: seq<Migration>

    ghost function Contents(): Schema
      reads this
    {
      Schema(table, ran)
    }

    constructor ()
      ensures Contents() == Schema(map[], [])
    {
      table := map[];
      ran := [];
    }

    method ApplyMigration(m: Migration, fate: Fate) returns (ok: bool)
      modifies this
      ensures (Contents(), ok) == ApplyOne(old(Contents()), m, fate)
    {
      if fate.BeginFails? { return false; }
      if fate.BodyFails? {
        if fate.marked { table := table[m.version := true]; }
        return false;
      }
      if fate.InsertFails? || m.version in table { return false; }
      if fate.CommitFails? && !fate.landed { return false; }
      table := table[m.version := false];
      ran := ran + [m];
      ok := fate.Smooth?;
    }

    /** The applied versions are read once, before the loop. */
    method ApplyMigrations(c: Call) returns (ok: bool)
      modifies this
      ensures (Contents(), ok) == Apply(old(Contents()), c)
    {
      if c.migs.None? || c.migs.value == [] || !Ready(c) { return false; }
      var migs := c.migs.value;
      var applied := set v | v in table && !table[v];
      for i := 0 to |migs|
        invariant ApplyFrom(Contents(), applied, migs, c.fates, i) ==
                  ApplyFrom(old(Contents()), Applied(old(Contents())), migs, c.fates, 0)
      {
        if migs[i].version !in applied {
          var applyOk := ApplyMigration(migs[i], c.fates(i));
          if !applyOk { return false; }
        }
      }
      ok := true;
    }
  }

  // ---------------------------------------------------------------- progress

  /** Ascending, pairwise different versions. */
  ghost predicate Ordered(migs: seq<Migration>) {
    forall i, j :: 0 <= i < j < |migs| ==> migs[i].version < migs[j].version
  }

  /** How far a database has got with a list of migrations, and whether the next one left a dirty row. */
  datatype Progress = Progress(done: nat, stuck: bool)

  ghost predicate Within(all: seq<Migration>, p: Progress) {
    p.done <= |all| && (p.stuck ==> p.done < |all|)
  }

  ghost function Versions(migs: seq<Migration>): set<int> {
    set m | m in migs :: m.version
  }

  /** The database that has got that far. */
  ghost function SchemaAt(all: seq<Migration>, p: Progress): Schema
    requires Within(all, p)
  {
    var clean := map v | v in Versions(all[..p.done]) :: false;
    Schema(if p.stuck then clean[all[p.done].version := true] else clean, all[..p.done])
  }

  /** One transaction as a step of progress. */
  function AdvanceOne(p: Progress, fate: Fate): (Progress, bool) {
    match fate
    case Smooth => if p.stuck then (p, false) else (Progress(p.done + 1, false), true)
    case BodyFails(marked) => (Progress(p.done, p.stuck || marked), false)
    case CommitFails(landed) => (if p.stuck || !landed then p else Progress(p.done + 1, false), false)
    case _ => (p, false)
  }

  /** A call as a step of progress alone: up to the first migration that does not go smoothly. */
  function Advance(n: nat, p: Progress, fates: nat -> Fate): (Progress, bool)
    decreases n - p.done
  {
    if p.done >= n then (p, true)
    else
      var (p1, ok) := AdvanceOne(p, fates(p.done));
      if ok then Advance(n, p1, fates) else (p1, false)
  }

  function AdvanceCall(p: Progress, c: Call): (Progress, bool) {
    if c.migs.None? || c.migs.value == [] || !Ready(c) then (p, false)
    else Advance(|c.migs.value|, p, c.fates)
  }

  lemma {:induction false} AdvanceWithin(all: seq<Migration>, n: nat, p: Progress, fates: nat -> Fate)
    requires n <= |all| && Within(all, p)
    ensures var p' := Advance(n, p, fates).0;
            && Within(all, p') && p.done <= p'.done && (p.stuck ==> p' == p)
    decreases n - p.done
  {
    if p.done < n && fates(p.done).Smooth? && !p.stuck {
      AdvanceWithin(all, n, Progress(p.done + 1, false), fates);
    }
  }

  /** The version after the first `k` is none of theirs. */
  lemma NextVersionIsNew(all: seq<Migration>, k: nat)
    requires Ordered(all) && k < |all|
    ensures all[k].version !in Versions(all[..k])
    ensures Versions(all[..k + 1]) == Versions(all[..k]) + {all[k].version}
  {
    assert all[..k + 1] == all[..k] + [all[k]];
    forall m | m in all[..k] ensures m.version < all[k].version {
      var i :| 0 <= i < k && all[i] == m;
    }
  }

  lemma RowAtProgress(all: seq<Migration>, p: Progress)
    requires Ordered(all) && Within(all, p) && p.done < |all|
    ensures all[p.done].version in SchemaAt(all, p).table <==> p.stuck
    ensures !p.stuck ==> Committed(SchemaAt(all, p), all[p.done]) == SchemaAt(all, Progress(p.done + 1, false))
    ensures SchemaAt(all, p).(table := SchemaAt(all, p).table[all[p.done].version := true]) ==
            SchemaAt(all, Progress(p.done, true))
  {
    NextVersionIsNew(all, p.done);
    assert all[..p.done + 1] == all[..p.done] + [all[p.done]];
  }

  lemma LaterVersionsAreNew(all: seq<Migration>, k: nat)
    requires Ordered(all) && k <= |all|
    ensures forall i :: k <= i < |all| ==> all[i].version !in Versions(all[..k])
  {
    forall i, m | k <= i < |all| && m in all[..k] ensures m.version < all[i].version {
      var j :| 0 <= j < k && all[j] == m;
    }
  }

  lemma AppliedAt(all: seq<Migration>, p: Progress)
    requires Ordered(all) && Within(all, p)
    ensures Applied(SchemaAt(all, p)) == Versions(all[..p.done])
  {
    if p.stuck { NextVersionIsNew(all, p.done); }
  }

  lemma TransactionAdvances(all: seq<Migration>, p: Progress, fate: Fate)
    requires Ordered(all) && Within(all, p) && p.done < |all|
    ensures Within(all, AdvanceOne(p, fate).0)
    ensures ApplyOne(SchemaAt(all, p), all[p.done], fate) ==
            (SchemaAt(all, AdvanceOne(p, fate).0), AdvanceOne(p, fate).1)
  {
    RowAtProgress(all, p);
    match fate
    case Smooth =>
    case BodyFails(_) =>
    case CommitFails(_) =>
    case _ =>
  }

  /** The loop from the first migration that is not applied yet. */
  lemma {:induction false} LoopAdvances(all: seq<Migration>, n: nat, applied: set<int>, p: Progress, fates: nat -> Fate)
    requires Ordered(all) && Within(all, p) && p.done <= n <= |all|
    requires forall i :: p.done <= i < n ==> all[i].version !in applied
    ensures Within(all, Advance(n, p, fates).0)
    ensures ApplyFrom(SchemaAt(all, p), applied, all[..n], fates, p.done) ==
            (SchemaAt(all, Advance(n, p, fates).0), Advance(n, p, fates).1)
    decreases n - p.done
  {
    if p.done < n {
      TransactionAdvances(all, p, fates(p.done));
      var (p1, ok) := AdvanceOne(p, fates(p.done));
      if ok { LoopAdvances(all, n, applied, p1, fates); }
    }
  }

  /** The migrations already applied are passed over. */
  lemma {:induction false} LoopSkips(migs: seq<Migration>, applied: set<int>, s: Schema, fates: nat -> Fate,
                                     i: nat, k: nat)
    requires i <= k <= |migs| && forall j :: i <= j < k ==> migs[j].version in applied
    ensures ApplyFrom(s, applied, migs, fates, i) == ApplyFrom(s, applied, migs, fates, k)
    decreases k - i
  {
    if i < k { LoopSkips(migs, applied, s, fates, i + 1, k); }
  }

  /** The call's list is the beginning of `all`: any release's migrations, older or newer. */
  ghost predicate FromList(all: seq<Migration>, c: Call) {
    c.migs.Some? ==> |c.migs.value| <= |all| && c.migs.value == all[..|c.migs.value|]
  }

  ghost predicate AllFromList(all: seq<Migration>, calls: seq<Call>) {
    forall i :: 0 <= i < |calls| ==> FromList(all, calls[i])
  }

  /** The transactional loop does exactly what the counter does. */
  lemma CallAdvances(all: seq<Migration>, p: Progress, c: Call)
    requires Ordered(all) && Within(all, p) && FromList(all, c)
    ensures Within(all, AdvanceCall(p, c).0)
    ensures Apply(SchemaAt(all, p), c) == (SchemaAt(all, AdvanceCall(p, c).0), AdvanceCall(p, c).1)
  {
    if c.migs.Some? && c.migs.value != [] && Ready(c) {
      var n, s := |c.migs.value|, SchemaAt(all, p);
      AppliedAt(all, p);
      var k := if p.done <= n then p.done else n;
      forall j | 0 <= j < k ensures c.migs.value[j].version in Versions(all[..p.done]) {
        assert all[..p.done][j] == c.migs.value[j] && all[..p.done][j] in all[..p.done];
      }
      LoopSkips(c.migs.value, Applied(s), s, c.fates, 0, k);
      LaterVersionsAreNew(all, p.done);
      if p.done <= n { LoopAdvances(all, n, Applied(s), p, c.fates); }
    }
  }

  // ---------------------------------------------------------------- whole runs

  function After(s: Schema, calls: seq<Call>): Schema
  {
    if calls == [] then s else Apply(After(s, calls[..|calls| - 1]), calls[|calls| - 1]).0
  }

  function ProgressAfter(p: Progress, calls: seq<Call>): Progress
  {
    if calls == [] then p else AdvanceCall(ProgressAfter(p, calls[..|calls| - 1]), calls[|calls| - 1]).0
  }

  const EMPTY: Schema := Schema(map[], [])

  /**
   Over any run of calls, whatever fails and whichever releases of one ascending list
   make them, the database is where the counter says: the migrations committed are a
   beginning of the list, each once, and at most the next one has a dirty row.
   */
  lemma {:induction false} RunIsProgress(all: seq<Migration>, calls: seq<Call>)
    requires Ordered(all) && AllFromList(all, calls)
    ensures var p := ProgressAfter(Progress(0, false), calls);
            Within(all, p) && After(EMPTY, calls) == SchemaAt(all, p)
  {
    if calls == [] {
      assert SchemaAt(all, Progress(0, false)).table == map[];
    } else {
      var front := calls[..|calls| - 1];
      assert forall i :: 0 <= i < |front| ==> front[i] == calls[i];
      RunIsProgress(all, front);
      CallAdvances(all, ProgressAfter(Progress(0, false), front), calls[|calls| - 1]);
    }
  }

  /** Once applied, a migration stays applied: what has committed is never undone or redone. */
  lemma CommittedStays(all: seq<Migration>, calls: seq<Call>, c: Call)
    requires Ordered(all) && FromList(all, c) && AllFromList(all, calls)
    ensures After(EMPTY, calls).ran <= Apply(After(EMPTY, calls), c).0.ran <= all
  {
    RunIsProgress(all, calls);
    var p := ProgressAfter(Progress(0, false), calls);
    CallAdvances(all, p, c);
    if c.migs.Some? { AdvanceWithin(all, |c.migs.value|, p, c.fates); }
  }

  /** The outstanding migrations of a call all go smoothly, and none of them has a dirty row. */
  ghost predicate ClearAhead(p: Progress, c: Call) {
    && c.migs.Some? && c.migs.value != [] && Ready(c)
    && (p.done < |c.migs.value| ==> !p.stuck)
    && (forall i :: p.done <= i < |c.migs.value| ==> c.fates(i).Smooth?)
  }

  lemma {:induction false} AdvanceToTheEnd(n: nat, p: Progress, fates: nat -> Fate)
    ensures Advance(n, p, fates).1 <==> (p.done < n ==> !p.stuck) && forall i :: p.done <= i < n ==> fates(i).Smooth?
    ensures Advance(n, p, fates).1 ==> Advance(n, p, fates).0 == (if p.done < n then Progress(n, false) else p)
    decreases n - p.done
  {
    if p.done < n && fates(p.done).Smooth? && !p.stuck {
      AdvanceToTheEnd(n, Progress(p.done + 1, false), fates);
    }
  }

  /**
   After any run, a call returns nil exactly when nothing is in the way. Then every
   migration of its list has been committed, and the same call again, however its
   transactions would have gone, returns nil and changes nothing.
   */
  lemma NilMeansAllApplied(all: seq<Migration>, calls: seq<Call>, c: Call, again: nat -> Fate)
    requires Ordered(all) && FromList(all, c) && AllFromList(all, calls)
    ensures var (t, ok) := Apply(After(EMPTY, calls), c);
            && (ok <==> ClearAhead(ProgressAfter(Progress(0, false), calls), c))
            && (ok ==> c.migs.value <= t.ran && Apply(t, c.(fates := again)) == (t, true))
  {
    RunIsProgress(all, calls);
    var p := ProgressAfter(Progress(0, false), calls);
    CallAdvances(all, p, c);
    if c.migs.Some? {
      AdvanceToTheEnd(|c.migs.value|, p, c.fates);
      CallAdvances(all, AdvanceCall(p, c).0, c.(fates := again));
    }
  }

  /** On PostgreSQL no call ever returns nil, and no migration is ever run. */
  lemma {:induction false} NothingRunsOnPostgres(calls: seq<Call>)
    requires forall i :: 0 <= i < |calls| ==> calls[i].dialect.Postgres?
    ensures After(EMPTY, calls) == EMPTY
    ensures forall i :: 0 <= i < |calls| ==> !Apply(After(EMPTY, calls[..i]), calls[i]).1
  {
    if calls != [] {
      var front := calls[..|calls| - 1];
      assert forall i :: 0 <= i < |front| ==> front[i] == calls[i] && front[..i] == calls[..i];
      NothingRunsOnPostgres(front);
      assert calls[..|front|] == front;
    }
  }

  // ---------------------------------------------------------------- dirty rows

  lemma {:induction false} LoopLeavesDirty(s: Schema, applied: set<int>, migs: seq<Migration>, fates: nat -> Fate,
                                           i: nat, v: int)
    requires v in s.table && s.table[v]
    ensures var t := ApplyFrom(s, applied, migs, fates, i).0;
            && v in t.table && t.table[v]
            && s.ran <= t.ran && forall j :: |s.ran| <= j < |t.ran| ==> t.ran[j].version != v
    ensures ApplyFrom(s, applied, migs, fates, i).1 ==>
              forall j :: i <= j < |migs| && migs[j].version == v ==> v in applied
    decreases |migs| - i
  {
    if i < |migs| {
      LoopLeavesDirty(ApplyOne(s, migs[i], fates(i)).0, applied, migs, fates, i + 1, v);
      LoopLeavesDirty(s, applied, migs, fates, i + 1, v);
    }
  }

  /**
   A dirty row is final, for every list a later call may bring: the row stays dirty,
   no later call commits that version, and no call whose list has it returns nil.
   */
  lemma {:induction false} DirtyIsFinal(s: Schema, calls: seq<Call>, v: int)
    requires v in s.table && s.table[v]
    ensures var t := After(s, calls);
            && v in t.table && t.table[v]
            && s.ran <= t.ran && (forall i :: |s.ran| <= i < |t.ran| ==> t.ran[i].version != v)
            && (forall c: Call :: c.migs.Some? && (exists m :: m in c.migs.value && m.version == v) ==>
                  !Apply(t, c).1)
  {
    if calls != [] {
      var front, last := calls[..|calls| - 1], calls[|calls| - 1];
      DirtyIsFinal(s, front, v);
      var t := After(s, front);
      if last.migs.Some? { LoopLeavesDirty(t, Applied(t), last.migs.value, last.fates, 0, v); }
    }
    var t := After(s, calls);
    forall c: Call | c.migs.Some? && exists m :: m in c.migs.value && m.version == v
      ensures !Apply(t, c).1
    {
      LoopLeavesDirty(t, Applied(t), c.migs.value, c.fates, 0, v);
    }
  }

  // ---------------------------------------------------------------- versions that are not distinct

  /** Every committed migration has a row, and no two share a version. */
  ghost predicate OncePerVersion(s: Schema) {
    && (forall i :: 0 <= i < |s.ran| ==> s.ran[i].version in s.table)
    && (forall i, j :: 0 <= i < j < |s.ran| ==> s.ran[i].version != s.ran[j].version)
  }

  lemma {:induction false} LoopOncePerVersion(s: Schema, applied: set<int>, migs: seq<Migration>, fates: nat -> Fate,
                                              i: nat)
    requires OncePerVersion(s)
    ensures OncePerVersion(ApplyFrom(s, applied, migs, fates, i).0)
    decreases |migs| - i
  {
    if i < |migs| {
      LoopOncePerVersion(ApplyOne(s, migs[i], fates(i)).0, applied, migs, fates, i + 1);
      LoopOncePerVersion(s, applied, migs, fates, i + 1);
    }
  }

  /** Whatever the lists of the calls, no two migrations of the same version are ever both committed. */
  lemma {:induction false} RunOncePerVersion(calls: seq<Call>)
    ensures OncePerVersion(After(EMPTY, calls))
  {
    if calls != [] {
      var front, last := calls[..|calls| - 1], calls[|calls| - 1];
      RunOncePerVersion(front);
      var t := After(EMPTY, front);
      if last.migs.Some? { LoopOncePerVersion(t, Applied(t), last.migs.value, last.fates, 0); }
    }
  }

  ghost predicate SortedByVersion(migs: seq<Migration>) {
    forall i, j :: 0 <= i < j < |migs| ==> migs[i].version <= migs[j].version
  }

  ghost predicate DistinctVersions(migs: seq<Migration>) {
    forall i, j :: 0 <= i < j < |migs| ==> migs[i].version != migs[j].version
  }

  /**
   For a run of calls with one sorted list that ended in nil, the whole list has run, in
   order, iff its versions are distinct.
   */
  lemma {:induction false} NilRanAllIffDistinct(migs: seq<Migration>, calls: seq<Call>)
    requires SortedByVersion(migs) && calls != []
    requires forall i :: 0 <= i < |calls| ==> calls[i].migs == Some(migs)
    requires Apply(After(EMPTY, calls[..|calls| - 1]), calls[|calls| - 1]).1
    ensures After(EMPTY, calls).ran == migs <==> DistinctVersions(migs)
  {
    var front, last := calls[..|calls| - 1], calls[|calls| - 1];
    RunOncePerVersion(calls);
    if DistinctVersions(migs) {
      assert Ordered(migs);
      assert migs[..|migs|] == migs;
      assert forall i :: 0 <= i < |front| ==> front[i] == calls[i];
      NilMeansAllApplied(migs, front, last, last.fates);
      CommittedStays(migs, front, last);
    }
  }

  /** Two migrations of one version: the second call reports success although the second body never ran. */
  lemma TwinIsLost(a: Migration, b: Migration)
    requires a.version == b.version
    ensures var c := Call(Some([a, b]), Sqlite, true, _ => Smooth);
            var t := After(EMPTY, [c]);
            && !Apply(EMPTY, c).1 && t == Schema(map[a.version := false], [a])
            && Apply(t, c) == (t, true)
  {
    var c := Call(Some([a, b]), Sqlite, true, _ => Smooth);
    assert [c][..0] == [];
    var s1 := Committed(EMPTY, a);
    assert ApplyFrom(EMPTY, {}, [a, b], c.fates, 0) == ApplyFrom(s1, {}, [a, b], c.fates, 1) == (s1, false);
    assert Applied(EMPTY) == {} && a.version in Applied(s1);
    LoopSkips([a, b], Applied(s1), s1, c.fates, 0, 2);
  }
}
