/**
 What a delivery's row says, told from the POSTs that were made for it: over every run the
 status, the end of the attempts, and when the next one is due.
 */
module WebhookOutcomes {
  import opened Wrappers
  import opened Webhook
  import opened WebhookRuns

  /** Some POST succeeded, and this could be written down. */
  predicate Succeeded(posts: seq<Post>) {
    exists k :: 0 <= k < |posts| && posts[k].recorded && posts[k].success
  }

  /** The outcome of some POST could be written down. */
  predicate SomeRecorded(posts: seq<Post>) {
    exists k :: 0 <= k < |posts| && posts[k].recorded
  }

  lemma {:induction false} RecordedOrNot(posts: seq<Post>)
    ensures SomeRecorded(posts) <==> Recorded(posts) != []
  {
    if posts != [] {
      var n := |posts| - 1;
      RecordedOrNot(posts[..n]);
      assert forall k :: 0 <= k < n ==> posts[..n][k] == posts[k];
    }
  }

  lemma OneMoreOutcome(posts: seq<Post>, post: Post)
    ensures Succeeded(posts + [post]) <==> Succeeded(posts) || (post.recorded && post.success)
    ensures (posts + [post])[|posts|] == post && |posts + [post]| == |posts| + 1
  {
    var all := posts + [post];
    assert forall k :: 0 <= k < |posts| ==> all[k] == posts[k];
    assert all[|posts|] == post;
  }

  predicate Lists(rows: seq<PendingRow>, id: string) {
    exists i :: 0 <= i < |rows| && rows[i].id == id
  }

  predicate Queued(s: State, id: string) {
    Lists(s.worker.queue, id)
  }

  /** A delivery that succeeded is done with: nobody is about to post it. */
  ghost predicate Settled(s: State, id: string) {
    id in s.log && Succeeded(s.log[id]) ==> id !in s.inFlight && !Queued(s, id)
  }

  ghost predicate OutcomesOk(s: State)
    requires Inv(s)
  {
    && (forall id :: id in s.log ==> Settled(s, id))
    && (forall id :: id in s.table ==> (s.table[id].status.Delivered? <==> Succeeded(s.log[id])))
  }

  lemma QueuedIsNotInFlight(s: State, id: string)
    requires Inv(s) && Queued(s, id)
    ensures id !in s.inFlight
  {
    var i :| 0 <= i < |s.worker.queue| && s.worker.queue[i].id == id;
    assert QueueEntryOk(s, s.worker.queue[i]);
  }

  lemma FirstOutcome(s: State, id: string, post: Post)
    requires Inv(s) && OutcomesOk(s) && Enabled(s, FirstResult(id, post)) && Inv(Apply(s, FirstResult(id, post)))
    ensures OutcomesOk(Apply(s, FirstResult(id, post)))
  {
    var t := Apply(s, FirstResult(id, post));
    if Queued(s, id) { QueuedIsNotInFlight(s, id); }
    OneMoreOutcome(s.log[id], post);
    forall other | other in t.log ensures Settled(t, other) {
      if other != id { assert Settled(s, other); }
    }
  }

  lemma StillQueued(s: State, post: Post, id: string)
    requires DistinctIds(s.worker.queue) && Enabled(s, RetryHead(post)) && Queued(Apply(s, RetryHead(post)), id)
    ensures Queued(s, id) && id != s.worker.queue[0].id
  {
    var q := s.worker.queue;
    var i :| 0 <= i < |q[1..]| && q[1..][i].id == id;
    assert q[i + 1] == q[1..][i];
  }

  lemma RetrySettles(s: State, post: Post, id: string)
    requires Inv(s) && OutcomesOk(s) && Enabled(s, RetryHead(post)) && (id == s.worker.queue[0].id || id in s.log)
    ensures Settled(Apply(s, RetryHead(post)), id)
  {
    assert QueueEntryOk(s, s.worker.queue[0]);
    if Queued(Apply(s, RetryHead(post)), id) { StillQueued(s, post, id); }
    assert Settled(s, id);
  }

  lemma RetriedStatus(ds: Table, p: PendingRow, posts: seq<Post>, post: Post)
    requires p.id in ds && !Succeeded(posts) && ds[p.id].status.Failed?
    ensures Retry(ds, p, post)[p.id].status.Delivered? <==> Succeeded(posts + [post])
  {
    OneMoreOutcome(posts, post);
  }

  lemma RetryOutcome(s: State, post: Post)
    requires Inv(s) && OutcomesOk(s) && Enabled(s, RetryHead(post)) && Inv(Apply(s, RetryHead(post)))
    ensures OutcomesOk(Apply(s, RetryHead(post)))
  {
    var p := s.worker.queue[0];
    var t := Apply(s, RetryHead(post));
    assert QueueEntryOk(s, p) && Queued(s, p.id) && Settled(s, p.id);
    if p.id in s.table { RetriedStatus(s.table, p, s.log[p.id], post); }
    forall id | id in t.log ensures Settled(t, id) {
      RetrySettles(s, post, id);
    }
  }

  lemma RoundOutcome(s: State, step: Step)
    requires Inv(s) && OutcomesOk(s) && step.BeginRound? && Enabled(s, step) && Inv(Apply(s, step))
    ensures OutcomesOk(Apply(s, step))
  {
    var t := Apply(s, step);
    forall id | id in t.log ensures Settled(t, id) {
      assert Settled(s, id);
      if Queued(t, id) {
        var i :| 0 <= i < |t.worker.queue| && t.worker.queue[i].id == id;
        assert id in step.batch;
        assert Eligible(s.table, s.hooks, step.now, id);
      }
    }
  }

  lemma OtherOutcome(s: State, step: Step)
    requires Inv(s) && OutcomesOk(s) && Enabled(s, step) && Inv(Apply(s, step))
    requires !step.FirstResult? && !step.RetryHead? && !step.BeginRound?
    ensures OutcomesOk(Apply(s, step))
  {
    var t := Apply(s, step);
    forall id | id in t.log ensures Settled(t, id) {
      assert id in s.log ==> Settled(s, id);
    }
  }

  lemma StepKeepsOutcomes(s: State, step: Step)
    requires Inv(s) && OutcomesOk(s) && Enabled(s, step)
    ensures Inv(Apply(s, step)) && OutcomesOk(Apply(s, step))
  {
    StepKeepsInv(s, step);
    match step
    case FirstResult(id, post) => FirstOutcome(s, id, post);
    case RetryHead(post) => RetryOutcome(s, post);
    case BeginRound(_, _, _) => RoundOutcome(s, step);
    case _ => OtherOutcome(s, step);
  }

  lemma {:induction false} RunKeepsOutcomes(s: State, steps: seq<Step>)
    requires Inv(s) && OutcomesOk(s) && Runs(s, steps)
    ensures Inv(After(s, steps)) && OutcomesOk(After(s, steps))
    decreases |steps|
  {
    if steps != [] {
      StepKeepsOutcomes(s, steps[0]);
      RunKeepsOutcomes(Apply(s, steps[0]), steps[1..]);
    }
  }

  /**
   In every run a row is "delivered" exactly when a POST of its delivery succeeded and this
   was recorded, "failed" exactly when some outcome was recorded but no success, and
   "pending" exactly when none was. A delivery with a recorded success is in no batch.
   */
  lemma StatusTellsOutcome(steps: seq<Step>, id: string, now: int, batch: seq<string>)
    requires Runs(EMPTY, steps)
    ensures var s := After(EMPTY, steps);
            id in s.table ==>
              && id in s.log
              && (s.table[id].status == Delivered <==> Succeeded(s.log[id]))
              && (s.table[id].status == Failed <==> SomeRecorded(s.log[id]) && !Succeeded(s.log[id]))
              && (s.table[id].status == Pending <==> !SomeRecorded(s.log[id]))
              && (Succeeded(s.log[id]) && IsBatch(s.table, s.hooks, now, batch) ==> id !in batch)
  {
    RunKeepsOutcomes(EMPTY, steps);
    var s := After(EMPTY, steps);
    if id in s.table {
      assert RowOk(s.table[id], s.log[id]);
      RecordedOrNot(s.log[id]);
      if IsBatch(s.table, s.hooks, now, batch) && id in batch {
        assert Eligible(s.table, s.hooks, now, id);
      }
    }
  }

  /** Once a success was recorded, the delivery is not posted again, whatever happens to its row. */
  lemma {:induction false} NoPostAfterSuccess(s: State, steps: seq<Step>, id: string)
    requires Inv(s) && OutcomesOk(s) && Runs(s, steps) && id in s.log && Succeeded(s.log[id])
    ensures id in After(s, steps).log && After(s, steps).log[id] == s.log[id]
    decreases |steps|
  {
    if steps != [] {
      var step := steps[0];
      StepKeepsOutcomes(s, step);
      assert Settled(s, id);
      if step.RetryHead? { assert Queued(s, s.worker.queue[0].id); }
      NoPostAfterSuccess(Apply(s, step), steps[1..], id);
    }
  }

  /** So in every run from the beginning a recorded success is the last POST of its delivery. */
  lemma SuccessIsLast(before: seq<Step>, after: seq<Step>, id: string)
    requires Runs(EMPTY, before) && Runs(After(EMPTY, before), after)
    requires id in After(EMPTY, before).log && Succeeded(After(EMPTY, before).log[id])
    ensures Runs(EMPTY, before + after)
    ensures id in After(EMPTY, before + after).log
    ensures After(EMPTY, before + after).log[id] == After(EMPTY, before).log[id]
  {
    RunKeepsOutcomes(EMPTY, before);
    NoPostAfterSuccess(After(EMPTY, before), after, id);
    RunThen(EMPTY, before, after);
  }

  /** When the POST after these recorded ones is due: at once after the first, then after 2, 4, 8 and 16 minutes. */
  predicate DueBy(recorded: seq<Post>, now: int) {
    && 1 <= |recorded| < 6
    && (|recorded| > 1 ==> recorded[|recorded| - 1].end + 60 * Pow2(|recorded| - 1) <= now)
  }

  lemma DueRow(d: Delivery, posts: seq<Post>, succeeded: bool, now: int)
    requires RowOk(d, posts) && (d.status.Delivered? <==> succeeded)
    ensures d.status.Failed? && d.attempts < MAX_ATTEMPTS && (d.next.None? || d.next.value <= now) <==>
            !succeeded && DueBy(Recorded(posts), now)
  {
    if d.status.Failed? && 2 <= d.attempts < MAX_ATTEMPTS {
      assert d.next == Some(Recorded(posts)[d.attempts - 1].end + Backoff(d.attempts));
    }
  }

  /**
   In every run a row may be retried exactly when its subscription is there, one to five
   outcomes are recorded, none a success, and the backoff after the last one is over.
   */
  lemma EligibleIffDue(steps: seq<Step>, id: string, now: int)
    requires Runs(EMPTY, steps)
    ensures var s := After(EMPTY, steps);
            id in s.table ==>
              && id in s.log
              && (Eligible(s.table, s.hooks, now, id) <==>
                    s.table[id].hook in s.hooks && !Succeeded(s.log[id]) && DueBy(Recorded(s.log[id]), now))
  {
    RunKeepsOutcomes(EMPTY, steps);
    var s := After(EMPTY, steps);
    if id in s.table {
      DueRow(s.table[id], s.log[id], Succeeded(s.log[id]), now);
    }
  }

  // ---------------------------------------------------------------- rows and rounds

  /** A row goes with its subscription and only then, and keeps its subscription and its age. */
  lemma RowStays(s: State, step: Step, id: string)
    requires Enabled(s, step) && id in s.table && id in s.log
    ensures var t := Apply(s, step);
            && (id in t.table <==> step != DropHook(s.table[id].hook))
            && (id in t.table ==>
                  t.table[id].hook == s.table[id].hook && t.table[id].created == s.table[id].created)
  {
    match step
    case RetryHead(_) =>
    case _ =>
  }

  lemma ListsOneMore(rows: seq<PendingRow>, row: PendingRow, id: string)
    ensures Lists(rows + [row], id) <==> Lists(rows, id) || row.id == id
  {
    var more := rows + [row];
    assert more[|rows|] == row;
    assert forall i :: 0 <= i < |rows| ==> more[i] == rows[i];
  }

  /** The worker reads exactly the rows of its batch that can be scanned. */
  lemma {:induction false} ReadsTheRest(ds: Table, batch: seq<string>, unread: set<string>, id: string)
    requires forall i :: 0 <= i < |batch| ==> batch[i] in ds
    ensures Lists(ReadRows(ds, batch, unread), id) <==> id in batch && id !in unread
  {
    if batch != [] {
      var n := |batch| - 1;
      ReadsTheRest(ds, batch[..n], unread, id);
      ListsOneMore(ReadRows(ds, batch[..n], unread), PendingRow(batch[n], ds[batch[n]].attempts), id);
      assert batch == batch[..n] + [batch[n]];
    }
  }

  lemma {:induction false} RetryFirst(ds: Table, ps: seq<PendingRow>, posts: seq<Post>)
    requires |posts| == |ps| && ps != []
    ensures RetryAll(ds, ps, posts) == RetryAll(Retry(ds, ps[0], posts[0]), ps[1..], posts[1..])
  {
    var n := |ps| - 1;
    if n == 0 {
      assert RetryAll(ds, ps[..0], posts[..0]) == ds;
    } else {
      RetryFirst(ds, ps[..n], posts[..n]);
      TakeThenDrop(ps, n);
      TakeThenDrop(posts, n);
    }
  }

  lemma TakeThenDrop<T>(q: seq<T>, n: nat)
    requires 1 <= n < |q|
    ensures q[..n][1..] == q[1..][..n - 1] && q[1..][n - 1] == q[n] && q[..n][0] == q[0] && |q[1..]| == |q| - 1
  {
  }

  /** The POSTs of a round: one after the other, from `now` on. */
  ghost predicate InOrder(now: int, posts: seq<Post>)
    decreases |posts|
  {
    posts == [] || (now <= posts[0].start <= posts[0].end && InOrder(posts[0].end, posts[1..]))
  }

  /** Retrying the whole queue is one step of the state machine after the other. */
  lemma {:induction false} QueueRetried(s: State, posts: seq<Post>) returns (steps: seq<Step>)
    requires |posts| == |s.worker.queue| && InOrder(s.worker.now, posts)
    ensures |steps| == |posts| && forall i :: 0 <= i < |posts| ==> steps[i] == RetryHead(posts[i])
    ensures Runs(s, steps)
    ensures After(s, steps).table == RetryAll(s.table, s.worker.queue, posts)
    ensures After(s, steps).worker.queue == []
    decreases |posts|
  {
    if posts == [] {
      steps := [];
    } else {
      var s1 := Apply(s, RetryHead(posts[0]));
      var rest := QueueRetried(s1, posts[1..]);
      RetryFirst(s.table, s.worker.queue, posts);
      steps := [RetryHead(posts[0])] + rest;
      assert steps[1..] == rest;
      forall i | 0 <= i < |posts| ensures steps[i] == RetryHead(posts[i]) {
        if i > 0 { assert rest[i - 1] == RetryHead(posts[1..][i - 1]); }
      }
    }
  }

  /** One call of `runOnce` is a round of the state machine: its beginning and a retry of every row it read. */
  lemma RoundIsRunOnce(s: State, now: int, batch: seq<string>, unread: set<string>, posts: seq<Post>)
    returns (steps: seq<Step>)
    requires Enabled(s, BeginRound(now, batch, unread))
    requires |posts| == |ReadRows(s.table, batch, unread)| && InOrder(now, posts)
    ensures |steps| == |posts| + 1 && steps[0] == BeginRound(now, batch, unread)
    ensures forall i :: 0 <= i < |posts| ==> steps[i + 1] == RetryHead(posts[i])
    ensures Runs(s, steps)
    ensures After(s, steps).table == RetryAll(s.table, ReadRows(s.table, batch, unread), posts)
    ensures After(s, steps).worker.queue == []
  {
    var begin := BeginRound(now, batch, unread);
    var rest := QueueRetried(Apply(s, begin), posts);
    steps := [begin] + rest;
    assert steps[1..] == rest;
  }
}
