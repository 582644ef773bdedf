/** What holds of the delivery system over whole runs: bounds, spacing, termination and fairness. */
module WebhookRuns {
  import opened Sequences
  import opened Wrappers
  import opened Webhook

  ghost predicate Runs(s: State, steps: seq<Step>)
    decreases |steps|
  {
    steps == [] || (Enabled(s, steps[0]) && Runs(Apply(s, steps[0]), steps[1..]))
  }

  ghost function After(s: State, steps: seq<Step>): State
    requires Runs(s, steps)
    decreases |steps|
  {
    if steps == [] then s else After(Apply(s, steps[0]), steps[1..])
  }

  lemma {:induction false} RunKeepsInv(s: State, steps: seq<Step>)
    requires Inv(s) && Runs(s, steps)
    ensures Inv(After(s, steps))
    decreases |steps|
  {
    if steps != [] {
      StepKeepsInv(s, steps[0]);
      RunKeepsInv(Apply(s, steps[0]), steps[1..]);
    }
  }

  const EMPTY: State := State(map[], {}, {}, Worker(0, []), map[])

  // ---------------------------------------------------------------- how often, and when

  /**
   In every run a delivery is posted at most six times, plus once for each outcome the
   database failed to record; the row's counter tells how often exactly.
   */
  lemma AtMostSixPosts(steps: seq<Step>, id: string)
    requires Runs(EMPTY, steps)
    ensures var s := After(EMPTY, steps);
            && (id in s.table ==> id in s.log)
            && (id in s.log ==> |s.log[id]| <= 6 + Lost(s.log[id]))
            && (id in s.table && !s.table[id].status.Pending? ==> |s.log[id]| == s.table[id].attempts + Lost(s.log[id]))
  {
    RunKeepsInv(EMPTY, steps);
    var s := After(EMPTY, steps);
    if id in s.table { assert RowOk(s.table[id], s.log[id]); }
  }

  /** The worker retries its whole queue at one instant, and no outcome can be recorded. */
  lemma {:induction false} QueueUnrecorded(s: State) returns (steps: seq<Step>)
    ensures forall i :: 0 <= i < |steps| ==> steps[i].RetryHead? && !steps[i].post.recorded
    ensures Runs(s, steps)
    ensures var t := After(s, steps);
            && t.table == s.table && t.hooks == s.hooks && t.inFlight == s.inFlight
            && t.worker == Worker(s.worker.now, [])
            && s.log.Keys <= t.log.Keys
            && (forall i :: 0 <= i < |s.worker.queue| ==> s.worker.queue[i].id in t.log)
            && (forall id :: id in s.log ==> s.log[id] <= t.log[id])
            && (forall i :: 0 <= i < |s.worker.queue| && s.worker.queue[i].id in s.log ==>
                  |s.log[s.worker.queue[i].id]| < |t.log[s.worker.queue[i].id]|)
    decreases |s.worker.queue|
  {
    if s.worker.queue == [] {
      steps := [];
    } else {
      var retry := RetryHead(Post(s.worker.now, s.worker.now, false, false));
      var s1 := Apply(s, retry);
      var rest := QueueUnrecorded(s1);
      steps := [retry] + rest;
      assert steps[1..] == rest;
      var q := s.worker.queue;
      forall i | 0 <= i < |q| ensures q[i].id in After(s1, rest).log
      {
        if i > 0 { assert s1.worker.queue[i - 1] == q[i]; }
      }
      forall i | 0 <= i < |q| && q[i].id in s.log ensures |s.log[q[i].id]| < |After(s1, rest).log[q[i].id]| {
        if i > 0 { assert s1.worker.queue[i - 1] == q[i]; }
      }
    }
  }

  /** A round in which nothing can be recorded changes nothing but the log, and has posted every row of its batch. */
  lemma RoundUnrecorded(s: State, batch: seq<string>) returns (retries: seq<Step>)
    requires Inv(s) && s.worker.queue == [] && IsBatch(s.table, s.hooks, s.worker.now, batch)
    ensures forall i :: 0 <= i < |retries| ==> retries[i].RetryHead? && !retries[i].post.recorded
    ensures var steps := [BeginRound(s.worker.now, batch, {})] + retries;
            && Runs(s, steps)
            && var t := After(s, steps);
               && Inv(t) && t.table == s.table && t.hooks == s.hooks && t.worker == s.worker
               && (forall id :: id in s.log ==> id in t.log && s.log[id] <= t.log[id])
               && (forall id :: id in batch ==> id in s.log && id in t.log && |s.log[id]| < |t.log[id]|)
  {
    var begin := BeginRound(s.worker.now, batch, {});
    var s1 := Apply(s, begin);
    retries := QueueUnrecorded(s1);
    var steps := [begin] + retries;
    assert steps[1..] == retries;
    RunKeepsInv(s, steps);
    forall id | id in batch
      ensures id in s.log && id in After(s1, retries).log && |s.log[id]| < |After(s1, retries).log[id]|
    {
      ReadAll(s.table, batch);
      var i :| 0 <= i < |batch| && batch[i] == id;
      assert s1.worker.queue[i].id == id;
    }
  }

  lemma {:induction false} ReadAll(ds: Table, batch: seq<string>)
    requires forall i :: 0 <= i < |batch| ==> batch[i] in ds
    ensures |ReadRows(ds, batch, {})| == |batch|
    ensures forall i :: 0 <= i < |batch| ==> ReadRows(ds, batch, {})[i].id == batch[i]
  {
    if batch != [] {
      var n := |batch| - 1;
      ReadAll(ds, batch[..n]);
      var before, rows := ReadRows(ds, batch[..n], {}), ReadRows(ds, batch, {});
      assert rows == before + [PendingRow(batch[n], ds[batch[n]].attempts)];
      forall i | 0 <= i < |batch| ensures rows[i].id == batch[i] {
        if i < n { assert rows[i] == before[i] && before[i].id == batch[..n][i]; }
      }
    }
  }

  lemma {:induction false} RunThen(s: State, a: seq<Step>, b: seq<Step>)
    requires Runs(s, a) && Runs(After(s, a), b)
    ensures Runs(s, a + b) && After(s, a + b) == After(After(s, a), b)
    decreases |a|
  {
    if a == [] {
      assert a + b == b;
    } else {
      RunThen(Apply(s, a[0]), a[1..], b);
      ConsAppend(a, b);
      assert (a + b)[1..] == a[1..] + b;
    }
  }

  /**
   Recording the outcomes is needed: without it any delivery that is in a batch can be
   posted any number of times.
   */
  lemma {:induction false} UnrecordedPostsNeverEnd(s: State, batch: seq<string>, id: string, n: nat)
    returns (steps: seq<Step>)
    requires Inv(s) && s.worker.queue == [] && IsBatch(s.table, s.hooks, s.worker.now, batch) && id in batch
    ensures Runs(s, steps)
    ensures id in s.log && id in After(s, steps).log
    ensures |After(s, steps).log[id]| >= |s.log[id]| + n
    decreases n
  {
    var i :| 0 <= i < |batch| && batch[i] == id;
    assert Eligible(s.table, s.hooks, s.worker.now, batch[i]);
    if n == 0 {
      steps := [];
    } else {
      var retries := RoundUnrecorded(s, batch);
      var first := [BeginRound(s.worker.now, batch, {})] + retries;
      var rest := UnrecordedPostsNeverEnd(After(s, first), batch, id, n - 1);
      RunThen(s, first, rest);
      steps := first + rest;
    }
  }

  lemma BackoffValues()
    ensures Backoff(1) == 60 * 1 && Backoff(2) == 60 * 2 && Backoff(3) == 60 * 4
    ensures Backoff(4) == 60 * 8 && Backoff(5) == 60 * 16 && Backoff(6) == 60 * 32
  {
    assert Pow2(0) == 1 && Pow2(1) == 2 && Pow2(2) == 4;
    assert Pow2(3) == 8 && Pow2(4) == 16 && Pow2(5) == 32;
  }

  /** Where in the history a recorded POST stands. */
  lemma {:induction false} RecordedAt(posts: seq<Post>, j: nat) returns (k: nat)
    requires j < |Recorded(posts)|
    ensures k < |posts| && posts[k] == Recorded(posts)[j] && Recorded(posts[..k]) == Recorded(posts)[..j]
  {
    var n := |posts| - 1;
    var before := Recorded(posts[..n]);
    if j < |before| {
      k := RecordedAt(posts[..n], j);
      assert posts[..n][..k] == posts[..k];
      assert Recorded(posts)[..j] == before[..j];
    } else {
      k := n;
      assert Recorded(posts)[..j] == before;
    }
  }

  /**
   In every run, whatever could not be recorded: after the k-th recorded POST of a
   delivery, k from 2 to 5, the next POST, recorded or not, starts no earlier than
   2^(k-1) minutes after that one ended; so six recorded attempts span half an hour.
   */
  lemma {:induction false} AttemptsAreSpaced(steps: seq<Step>, id: string, next: nat)
    requires Runs(EMPTY, steps) && id in After(EMPTY, steps).log
    ensures var posts := After(EMPTY, steps).log[id];
            && (next < |posts| ==> Waits(Recorded(posts[..next]), posts[next]))
            && |Recorded(posts)| <= 6
            && (|Recorded(posts)| == 6 ==> Recorded(posts)[1].end + 60 * 30 <= Recorded(posts)[5].start)
  {
    RunKeepsInv(EMPTY, steps);
    var posts := After(EMPTY, steps).log[id];
    if next < |posts| { NextWaits(posts, next); }
    SpanOfSix(posts);
  }

  /** After these recorded POSTs, five at most, this one kept to the backoff. */
  predicate Waits(before: seq<Post>, post: Post) {
    |before| <= 5 && (2 <= |before| ==> before[|before| - 1].end + 60 * Pow2(|before| - 1) <= post.start)
  }

  lemma {:induction false} NextWaits(posts: seq<Post>, next: nat)
    requires Spaced(posts) && next < |posts|
    ensures Waits(Recorded(posts[..next]), posts[next])
  {
    var before := Recorded(posts[..next]);
    if 2 <= |before| { assert NotBefore(posts[..next]) == Some(before[|before| - 1].end + Backoff(|before|)); }
  }

  lemma {:induction false} SpanOfSix(posts: seq<Post>)
    requires Spaced(posts) && |Recorded(posts)| <= MAX_ATTEMPTS
    ensures |Recorded(posts)| == 6 ==> Recorded(posts)[1].end + 60 * 30 <= Recorded(posts)[5].start
  {
    if |Recorded(posts)| == 6 {
      BackoffValues();
      RecordedSpaced(posts, 2);
      RecordedSpaced(posts, 3);
      RecordedSpaced(posts, 4);
      RecordedSpaced(posts, 5);
    }
  }

  lemma {:induction false} RecordedSpaced(posts: seq<Post>, j: nat)
    requires Spaced(posts) && 2 <= j < |Recorded(posts)| <= MAX_ATTEMPTS
    ensures var recorded := Recorded(posts);
            recorded[j - 1].end + Backoff(j) <= recorded[j].start <= recorded[j].end
  {
    var k := RecordedAt(posts, j);
    var before := Recorded(posts[..k]);
    assert |before| == j && before[j - 1] == Recorded(posts)[j - 1];
  }

  /** A first failure may be retried at once, whatever the time. */
  lemma FirstFailureIsEligible(s: State, id: string, post: Post, now: int)
    requires Inv(s) && Enabled(s, FirstResult(id, post)) && id in s.table && s.table[id].hook in s.hooks
    requires post.recorded && !post.success
    ensures var t := Apply(s, FirstResult(id, post));
            t.table[id].attempts == 1 && Eligible(t.table, t.hooks, now, id)
  {
    assert RowOk(s.table[id], s.log[id]);
  }

  /** A stored time lies at most 16 minutes after the delivery's last POST, which the worker's clock is past. */
  predicate DelayShort(d: Delivery, posts: seq<Post>, now: int) {
    d.next.Some? ==>
      posts != [] && posts[|posts| - 1].end <= now && d.next.value <= posts[|posts| - 1].end + 60 * 16
  }

  ghost predicate DelaysShort(s: State) {
    forall id :: id in s.table ==> id in s.log && DelayShort(s.table[id], s.log[id], s.worker.now)
  }

  lemma DelayAfterRetry(ds: Table, p: PendingRow, posts: seq<Post>, post: Post, now: int)
    requires p.id in ds && DelayShort(ds[p.id], posts, now)
    requires 1 <= p.attempts < MAX_ATTEMPTS && now <= post.start <= post.end
    ensures DelayShort(Retry(ds, p, post)[p.id], posts + [post], post.end)
  {
    LongestBackoff(p.attempts + 1);
    assert (posts + [post])[|posts|] == post;
  }

  lemma StepKeepsDelaysShort(s: State, step: Step)
    requires Inv(s) && DelaysShort(s) && Enabled(s, step)
    ensures DelaysShort(Apply(s, step))
  {
    match step
    case RetryHead(post) => RetryKeepsDelaysShort(s, post);
    case FirstResult(id, _) =>
      if id in s.table { assert RowOk(s.table[id], s.log[id]); }
    case _ =>
  }

  lemma RetryKeepsDelaysShort(s: State, post: Post)
    requires Inv(s) && DelaysShort(s) && Enabled(s, RetryHead(post))
    ensures DelaysShort(Apply(s, RetryHead(post)))
  {
    var p := s.worker.queue[0];
    assert QueueEntryOk(s, p);
    if p.id in s.table { DelayAfterRetry(s.table, p, s.log[p.id], post, s.worker.now); }
  }

  lemma LongestBackoff(n: nat)
    ensures 1 <= n < MAX_ATTEMPTS ==> Backoff(n) <= 60 * 16
  {
    BackoffValues();
  }

  lemma {:induction false} RunKeepsDelaysShort(s: State, steps: seq<Step>)
    requires Inv(s) && DelaysShort(s) && Runs(s, steps)
    ensures DelaysShort(After(s, steps))
    decreases |steps|
  {
    if steps != [] {
      StepKeepsInv(s, steps[0]);
      StepKeepsDelaysShort(s, steps[0]);
      RunKeepsDelaysShort(Apply(s, steps[0]), steps[1..]);
    }
  }

  /**
   In every run no stored delay exceeds 16 minutes: the 32-minute backoff of the table in
   the source is never used.
   */
  lemma LongestDelayUnused(steps: seq<Step>, id: string)
    requires Runs(EMPTY, steps)
    ensures var s := After(EMPTY, steps);
            id in s.table && s.table[id].next.Some? ==>
              && id in s.log && s.log[id] != []
              && s.table[id].next.value <= s.log[id][|s.log[id]| - 1].end + 60 * 16
  {
    RunKeepsDelaysShort(EMPTY, steps);
  }

  /**
   "Delivered" is final, and a row left "pending" because its first attempt was cut off
   stays so: no step changes either, except deleting it with its subscription.
   */
  lemma {:induction false} SettledRowsStay(s: State, steps: seq<Step>, id: string)
    requires Inv(s) && Runs(s, steps) && id in s.table && id in s.log
    requires s.table[id].status.Delivered? || (s.table[id].status.Pending? && id !in s.inFlight)
    ensures var t := After(s, steps);
            id in t.table ==> id in t.log && t.table[id] == s.table[id] && t.log[id] == s.log[id]
    decreases |steps|
  {
    if steps != [] {
      var step := steps[0];
      StepKeepsInv(s, step);
      if step.RetryHead? { assert QueueEntryOk(s, s.worker.queue[0]); }
      var s1 := Apply(s, step);
      if id in s1.table {
        SettledRowsStay(s1, steps[1..], id);
      } else {
        GoneStaysGone(s1, steps[1..], id);
      }
    }
  }

  lemma {:induction false} GoneStaysGone(s: State, steps: seq<Step>, id: string)
    requires Runs(s, steps) && id in s.log && id !in s.table
    ensures id !in After(s, steps).table
    decreases |steps|
  {
    if steps != [] { GoneStaysGone(Apply(s, steps[0]), steps[1..], id); }
  }

  // ---------------------------------------------------------------- termination

  /** Attempts a row still has. */
  function Weight(d: Delivery): nat {
    if d.status.Delivered? || d.attempts >= MAX_ATTEMPTS then 0 else MAX_ATTEMPTS - d.attempts
  }

  ghost function Budget(ds: Table): nat
    decreases |ds|
  {
    if ds == map[] then 0
    else
      var id :| id in ds;
      Weight(ds[id]) + Budget(ds - {id})
  }

  lemma {:induction false} BudgetSplit(ds: Table, id: string)
    requires id in ds
    ensures Budget(ds) == Weight(ds[id]) + Budget(ds - {id})
    decreases |ds|
  {
    var pick :| pick in ds && Budget(ds) == Weight(ds[pick]) + Budget(ds - {pick});
    if pick != id {
      BudgetSplit(ds - {pick}, id);
      BudgetSplit(ds - {id}, pick);
      assert ds - {pick} - {id} == ds - {id} - {pick};
    }
  }

  /** Fewer rows, or rows with fewer attempts left, have a smaller budget. */
  lemma {:induction false} BudgetMonotone(a: Table, b: Table)
    requires forall id :: id in a ==> id in b && Weight(a[id]) <= Weight(b[id])
    ensures Budget(a) <= Budget(b)
    decreases |b|
  {
    if b == map[] {
      assert a == map[];
    } else {
      var id :| id in b;
      BudgetSplit(b, id);
      if id in a { BudgetSplit(a, id); } else { assert a - {id} == a; }
      BudgetMonotone(a - {id}, b - {id});
    }
  }

  lemma BudgetOfUpdate(ds: Table, id: string, d: Delivery)
    ensures Budget(ds[id := d]) == Weight(d) + Budget(ds - {id})
  {
    BudgetSplit(ds[id := d], id);
    assert ds[id := d] - {id} == ds - {id};
  }

  /** Retrying a failed row, and writing the outcome down, uses up at least one of its attempts. */
  lemma RetrySpends(ds: Table, p: PendingRow, post: Post)
    requires p.id in ds && ds[p.id].status.Failed? && ds[p.id].attempts == p.attempts < MAX_ATTEMPTS && post.recorded
    ensures Weight(Retry(ds, p, post)[p.id]) < Weight(ds[p.id])
    ensures Budget(Retry(ds, p, post)) < Budget(ds)
  {
    BudgetSplit(ds, p.id);
    BudgetOfUpdate(ds, p.id, Retry(ds, p, post)[p.id]);
  }

  /** A retry whose outcome reached its row. */
  predicate Counts(s: State, step: Step) {
    step.RetryHead? && step.post.recorded && s.worker.queue != [] && s.worker.queue[0].id in s.table
  }

  lemma StepSpends(s: State, step: Step)
    requires Inv(s) && Enabled(s, step)
    ensures Budget(Apply(s, step).table) + (if Counts(s, step) then 1 else 0)
            <= Budget(s.table) + (if step.Insert? then MAX_ATTEMPTS - 1 else 0)
  {
    var s' := Apply(s, step);
    match step
    case Insert(id, hook, created) =>
      BudgetOfUpdate(s.table, id, Delivery(hook, Pending, 1, None, created));
      BudgetMonotone(s.table - {id}, s.table);
    case RetryHead(post) =>
      assert QueueEntryOk(s, s.worker.queue[0]);
      if Counts(s, step) { RetrySpends(s.table, s.worker.queue[0], post); }
    case FirstResult(id, post) =>
      if id in s.table { assert RowOk(s.table[id], s.log[id]); }
      BudgetMonotone(s'.table, s.table);
    case _ => BudgetMonotone(s'.table, s.table);
  }

  ghost function Retries(s: State, steps: seq<Step>): nat
    requires Runs(s, steps)
    decreases |steps|
  {
    if steps == [] then 0
    else (if Counts(s, steps[0]) then 1 else 0) + Retries(Apply(s, steps[0]), steps[1..])
  }

  function Inserts(steps: seq<Step>): nat {
    if steps == [] then 0 else (if steps[0].Insert? then 1 else 0) + Inserts(steps[1..])
  }

  /**
   The system runs out of work: over any run, the recorded retries and what remains of
   the rows' attempts are bounded by the attempts at the start and five per new delivery.
   */
  lemma {:induction false} RetriesAreBounded(s: State, steps: seq<Step>)
    requires Inv(s) && Runs(s, steps)
    ensures Retries(s, steps) + Budget(After(s, steps).table)
            <= Budget(s.table) + (MAX_ATTEMPTS - 1) * Inserts(steps)
    decreases |steps|
  {
    if steps != [] {
      StepSpends(s, steps[0]);
      StepKeepsInv(s, steps[0]);
      RetriesAreBounded(Apply(s, steps[0]), steps[1..]);
    }
  }

  // ---------------------------------------------------------------- no starvation

  /** The rows the worker prefers to `id`. */
  ghost function Older(ds: Table, id: string): Table
    requires id in ds
  {
    map k | k in ds && k != id && ds[k].created <= ds[id].created :: ds[k]
  }

  /** How many of the queued rows are in a table. */
  ghost function Owed(queue: seq<PendingRow>, ds: Table): nat {
    if queue == [] then 0 else (if queue[0].id in ds then 1 else 0) + Owed(queue[1..], ds)
  }

  /** Attempts that older rows have left beyond those the current round is about to spend. */
  ghost function Slack(s: State, id: string): int
    requires id in s.table
  {
    Budget(Older(s.table, id)) - Owed(s.worker.queue, Older(s.table, id))
  }

  /** The round leaves out a row that is eligible. */
  ghost predicate Overlooks(s: State, step: Step, id: string) {
    step.BeginRound? && Eligible(s.table, s.hooks, step.now, id) && id !in step.batch
  }

  /**
   What a step does not spend although it could have, or adds for older rows to spend: an
   outcome that is not recorded, rows of a batch that are not read or are dropped as the
   worker stops, and a new delivery that counts as older.
   */
  ghost function Excuse(s: State, step: Step, id: string): nat
    requires id in s.table && Enabled(s, step)
  {
    match step
    case RetryHead(post) => if post.recorded then 0 else 1
    case BeginRound(_, batch, unread) => |batch| - |ReadRows(s.table, batch, unread)|
    case WorkerStops => |s.worker.queue|
    case Insert(_, _, created) => if created <= s.table[id].created then MAX_ATTEMPTS - 1 else 0
    case _ => 0
  }

  lemma {:induction false} OwedSame(queue: seq<PendingRow>, a: Table, b: Table)
    requires forall i :: 0 <= i < |queue| ==> (queue[i].id in a <==> queue[i].id in b)
    ensures Owed(queue, a) == Owed(queue, b)
  {
    if queue != [] { OwedSame(queue[1..], a, b); }
  }

  lemma {:induction false} OwedAll(queue: seq<PendingRow>, ds: Table)
    requires forall i :: 0 <= i < |queue| ==> queue[i].id in ds
    ensures Owed(queue, ds) == |queue|
  {
    if queue != [] { OwedAll(queue[1..], ds); }
  }

  lemma {:induction false} OwedAtMost(queue: seq<PendingRow>, ds: Table)
    ensures Owed(queue, ds) <= |queue|
  {
    if queue != [] { OwedAtMost(queue[1..], ds); }
  }

  /** Queued rows that vanish take at least one attempt each with them. */
  lemma {:induction false} VanishedRowsSpend(queue: seq<PendingRow>, a: Table, b: Table)
    requires DistinctIds(queue)
    requires forall k :: k in a ==> k in b && a[k] == b[k]
    requires forall i :: 0 <= i < |queue| && queue[i].id in b ==> Weight(b[queue[i].id]) >= 1
    ensures Owed(queue, b) - Owed(queue, a) <= Budget(b) - Budget(a)
    decreases |queue|
  {
    if queue == [] {
      BudgetMonotone(a, b);
    } else {
      var h, rest := queue[0].id, queue[1..];
      assert forall i :: 0 <= i < |rest| ==> rest[i] == queue[i + 1] && rest[i].id != h;
      if h in b && h !in a {
        BudgetSplit(b, h);
        OwedSame(rest, b, b - {h});
        VanishedRowsSpend(rest, a, b - {h});
      } else {
        VanishedRowsSpend(rest, a, b);
      }
    }
  }

  lemma QueuedRowsWeigh(s: State)
    requires Inv(s)
    ensures forall i :: 0 <= i < |s.worker.queue| && s.worker.queue[i].id in s.table ==>
              Weight(s.table[s.worker.queue[i].id]) >= 1
  {
    forall i | 0 <= i < |s.worker.queue| && s.worker.queue[i].id in s.table
      ensures Weight(s.table[s.worker.queue[i].id]) >= 1
    {
      assert QueueEntryOk(s, s.worker.queue[i]);
    }
  }

  lemma SlackNonNegative(s: State, id: string)
    requires Inv(s) && id in s.table
    ensures Slack(s, id) >= 0
  {
    QueuedRowsWeigh(s);
    OwedSame(s.worker.queue, map[], map[]);
    VanishedRowsSpend(s.worker.queue, map[], Older(s.table, id));
    OwedNone(s.worker.queue);
  }

  lemma {:induction false} OwedNone(queue: seq<PendingRow>)
    ensures Owed(queue, map[]) == 0
  {
    if queue != [] { OwedNone(queue[1..]); }
  }

  lemma SlackBeginRound(s: State, step: Step, id: string)
    requires Inv(s) && Enabled(s, step) && step.BeginRound? && id in s.table
    ensures Slack(Apply(s, step), id) + (if Overlooks(s, step, id) then BATCH else 0)
            <= Slack(s, id) + Excuse(s, step, id)
  {
    var rows := ReadRows(s.table, step.batch, step.unread);
    if Overlooks(s, step, id) {
      forall i | 0 <= i < |rows| ensures rows[i].id in Older(s.table, id) {
        var j :| 0 <= j < |step.batch| && step.batch[j] == rows[i].id;
      }
      OwedAll(rows, Older(s.table, id));
    }
  }

  lemma SlackRetry(s: State, post: Post, id: string)
    requires Inv(s) && Enabled(s, RetryHead(post)) && id in s.table
    ensures id in Apply(s, RetryHead(post)).table
    ensures Slack(Apply(s, RetryHead(post)), id) <= Slack(s, id) + (if post.recorded then 0 else 1)
  {
    var p, older := s.worker.queue[0], Older(s.table, id);
    var s' := Apply(s, RetryHead(post));
    assert QueueEntryOk(s, p);
    OlderAfterRetry(s.table, id, p, post);
    if p.id in older {
      if post.recorded { RetrySpends(older, p, post); }
      OwedSame(s'.worker.queue, older, Retry(older, p, post));
    }
  }

  lemma OlderAfterRetry(ds: Table, id: string, p: PendingRow, post: Post)
    requires id in ds
    ensures id in Retry(ds, p, post)
    ensures Older(Retry(ds, p, post), id) ==
            if p.id in Older(ds, id) then Retry(Older(ds, id), p, post) else Older(ds, id)
  {
  }

  lemma SlackInsert(s: State, step: Step, id: string)
    requires Inv(s) && Enabled(s, step) && step.Insert? && id in s.table
    ensures Slack(Apply(s, step), id) <= Slack(s, id) + Excuse(s, step, id)
  {
    var s' := Apply(s, step);
    var older, d := Older(s.table, id), Delivery(step.hook, Pending, 1, None, step.created);
    assert step.id !in s.table && step.id !in older;
    forall i | 0 <= i < |s.worker.queue| ensures s.worker.queue[i].id != step.id {
      assert QueueEntryOk(s, s.worker.queue[i]);
    }
    OlderAfterInsert(s.table, id, step.id, d);
    OwedSame(s.worker.queue, older, Older(s'.table, id));
  }

  lemma OlderAfterInsert(ds: Table, id: string, k: string, d: Delivery)
    requires id in ds && k !in ds
    ensures Older(ds[k := d], id) == if d.created <= ds[id].created then Older(ds, id)[k := d] else Older(ds, id)
    ensures Budget(Older(ds[k := d], id)) <=
            Budget(Older(ds, id)) + (if d.created <= ds[id].created then Weight(d) else 0)
  {
    var older := Older(ds, id);
    assert Older(ds[k := d], id) == if d.created <= ds[id].created then older[k := d] else older;
    BudgetOfUpdate(older, k, d);
    assert older - {k} == older;
  }

  lemma SlackDropHook(s: State, hook: string, id: string)
    requires Inv(s) && id in Apply(s, DropHook(hook)).table
    ensures id in s.table && Slack(Apply(s, DropHook(hook)), id) <= Slack(s, id)
  {
    QueuedRowsWeigh(s);
    VanishedRowsSpend(s.worker.queue, Older(Apply(s, DropHook(hook)).table, id), Older(s.table, id));
  }

  lemma SlackFirstResult(s: State, k: string, post: Post, id: string)
    requires Inv(s) && Enabled(s, FirstResult(k, post)) && id in s.table
    ensures id in Apply(s, FirstResult(k, post)).table
    ensures Slack(Apply(s, FirstResult(k, post)), id) <= Slack(s, id)
  {
    var older, older' := Older(s.table, id), Older(Apply(s, FirstResult(k, post)).table, id);
    if k in s.table { assert RowOk(s.table[k], s.log[k]); }
    BudgetMonotone(older', older);
    OwedSame(s.worker.queue, older, older');
  }

  /** Every step keeps the account: overlooking a row costs fifty of the older rows' attempts, or has its excuse. */
  lemma StepSlack(s: State, step: Step, id: string)
    requires Inv(s) && Enabled(s, step) && id in s.table && id in Apply(s, step).table
    ensures Slack(Apply(s, step), id) + (if Overlooks(s, step, id) then BATCH else 0)
            <= Slack(s, id) + Excuse(s, step, id)
  {
    match step
    case Insert(_, _, _) => SlackInsert(s, step, id);
    case FirstResult(k, post) => SlackFirstResult(s, k, post, id);
    case BeginRound(_, _, _) => SlackBeginRound(s, step, id);
    case RetryHead(post) => SlackRetry(s, post, id);
    case WorkerStops => OwedAtMost(s.worker.queue, Older(s.table, id));
    case DropHook(hook) => SlackDropHook(s, hook, id);
    case _ =>
  }

  /** How often the row is left out along a run, while it is in the table. */
  ghost function Overlooked(s: State, steps: seq<Step>, id: string): nat
    requires Runs(s, steps)
    decreases |steps|
  {
    if steps == [] then 0
    else (if Overlooks(s, steps[0], id) then 1 else 0) + Overlooked(Apply(s, steps[0]), steps[1..], id)
  }

  ghost function Excuses(s: State, steps: seq<Step>, id: string): nat
    requires Runs(s, steps)
    decreases |steps|
  {
    if steps == [] || id !in s.table then 0
    else Excuse(s, steps[0], id) + Excuses(Apply(s, steps[0]), steps[1..], id)
  }

  /**
   No eligible row is starved: over any run in which the row stays, it can be left out of
   a round only as often as fifty goes into the attempts older rows had left, plus what
   was excused on the way.
   */
  lemma {:induction false} NotStarved(s: State, steps: seq<Step>, id: string)
    requires Inv(s) && Runs(s, steps) && id in s.table && id in After(s, steps).table
    ensures 50 * Overlooked(s, steps, id) <= Slack(s, id) + Excuses(s, steps, id)
    ensures Slack(s, id) <= Budget(Older(s.table, id))
    decreases |steps|
  {
    if steps == [] {
      SlackNonNegative(s, id);
    } else {
      var s1 := Apply(s, steps[0]);
      StepKeepsInv(s, steps[0]);
      if id !in s1.table { GoneStaysGone(s1, steps[1..], id); }
      StepSlack(s, steps[0], id);
      NotStarved(s1, steps[1..], id);
    }
  }

  lemma {:induction false} OverlookedThen(s: State, a: seq<Step>, b: seq<Step>, id: string)
    requires Runs(s, a) && Runs(After(s, a), b) && Runs(s, a + b)
    ensures Overlooked(s, a + b, id) == Overlooked(s, a, id) + Overlooked(After(s, a), b, id)
    decreases |a|
  {
    if a == [] {
      assert a + b == b;
    } else {
      RunThen(Apply(s, a[0]), a[1..], b);
      assert (a + b)[1..] == a[1..] + b && (a + b)[0] == a[0];
      OverlookedThen(Apply(s, a[0]), a[1..], b, id);
    }
  }

  lemma {:induction false} RetriesOverlookNothing(s: State, steps: seq<Step>, id: string)
    requires Runs(s, steps) && forall i :: 0 <= i < |steps| ==> steps[i].RetryHead?
    ensures Overlooked(s, steps, id) == 0
    decreases |steps|
  {
    if steps != [] {
      assert forall i :: 0 <= i < |steps| - 1 ==> steps[1..][i] == steps[i + 1];
      RetriesOverlookNothing(Apply(s, steps[0]), steps[1..], id);
    }
  }

  /**
   The excuses are needed: if outcomes are not recorded, a row that fifty older ones keep
   out of the batch can be left out any number of times.
   */
  lemma {:induction false} UnrecordedRoundsStarve(s: State, batch: seq<string>, id: string, n: nat)
    returns (steps: seq<Step>)
    requires Inv(s) && s.worker.queue == [] && IsBatch(s.table, s.hooks, s.worker.now, batch)
    requires Eligible(s.table, s.hooks, s.worker.now, id) && id !in batch
    ensures Runs(s, steps) && id in After(s, steps).table
    ensures Overlooked(s, steps, id) == n
    decreases n
  {
    if n == 0 {
      steps := [];
    } else {
      var retries := RoundUnrecorded(s, batch);
      var begin := BeginRound(s.worker.now, batch, {});
      var first := [begin] + retries;
      assert first[1..] == retries;
      RetriesOverlookNothing(Apply(s, begin), retries, id);
      var rest := UnrecordedRoundsStarve(After(s, first), batch, id, n - 1);
      RunThen(s, first, rest);
      OverlookedThen(s, first, rest, id);
      steps := first + rest;
    }
  }
}
