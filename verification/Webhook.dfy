/**
 Webhook deliveries: the first attempt, made when the event fires, and the retry
 worker with its batch limit and exponential backoff. Times are in seconds.
 */
module Webhook {
  import opened Sequences
  import opened Wrappers

  const MAX_ATTEMPTS: nat := 6
  const BATCH: nat := 50
  datatype Status = Pending | Delivered | Failed

  datatype Delivery = Delivery(hook: string, status: Status, attempts: nat, next: Option<int>, created: int)

  type Table = map<string, Delivery>

  function Pow2(n: nat): nat {
    if n == 0 then 1 else 2 * Pow2(n - 1)
  }

  /** Delay before the next attempt after attempt `n`. */
  function Backoff(n: int): nat {
    60 * Pow2(if n < 1 then 0 else n - 1)
  }

  predicate Eligible(ds: Table, hooks: set<string>, now: int, id: string) {
    && id in ds
    && ds[id].status.Failed?
    && ds[id].attempts < MAX_ATTEMPTS
    && (ds[id].next.None? || ds[id].next.value <= now)
    && ds[id].hook in hooks
  }

  /** An answer the database may give to the worker's query: oldest first, at most 50, ties in any order. */
  ghost predicate IsBatch(ds: Table, hooks: set<string>, now: int, batch: seq<string>) {
    && |batch| <= BATCH
    && Distinct(batch)
    && (forall i :: 0 <= i < |batch| ==> Eligible(ds, hooks, now, batch[i]))
    && (forall id :: Eligible(ds, hooks, now, id) && id !in batch ==>
          |batch| == BATCH && forall i :: 0 <= i < |batch| ==> ds[batch[i]].created <= ds[id].created)
  }

  /** A row as the worker read it. */
  datatype PendingRow = PendingRow(id: string, attempts: nat)

  /** One POST as it went: when, whether the answer was 2xx, and whether the outcome could be written down. */
  datatype Post = Post(start: int, end: int, success: bool, recorded: bool)

  function InsertRow(ds: Table, id: string, hook: string, created: int): Table {
    ds[id := Delivery(hook, Pending, 1, None, created)]
  }

  function MarkFirst(ds: Table, id: string, post: Post): Table {
    if id in ds && post.recorded then ds[id := ds[id].(status := if post.success then Delivered else Failed)] else ds
  }

  function MarkRetry(d: Delivery, attemptsRead: nat, end: int): Delivery {
    var attempts := attemptsRead + 1;
    d.(attempts := attempts, next := if attempts >= MAX_ATTEMPTS then None else Some(end + Backoff(attempts)))
  }

  function Retry(ds: Table, p: PendingRow, post: Post): Table {
    if p.id !in ds || !post.recorded then ds
    else if post.success then ds[p.id := ds[p.id].(status := Delivered, attempts := ds[p.id].attempts + 1)]
    else ds[p.id := MarkRetry(ds[p.id], p.attempts, post.end)]
  }

  /** The rows of a batch as the worker read them; those it could not scan are passed over. */
  function ReadRows(ds: Table, batch: seq<string>, unread: set<string>): (rows: seq<PendingRow>)
    requires forall i :: 0 <= i < |batch| ==> batch[i] in ds
    ensures |rows| <= |batch|
    ensures forall i :: 0 <= i < |rows| ==>
              rows[i].id in batch && rows[i].id in ds && rows[i].attempts == ds[rows[i].id].attempts
  {
    if batch == [] then []
    else
      var n := |batch| - 1;
      var before := ReadRows(ds, batch[..n], unread);
      assert batch == batch[..n] + [batch[n]];
      if batch[n] in unread then before else before + [PendingRow(batch[n], ds[batch[n]].attempts)]
  }

  /** No delivery is listed twice. */
  ghost predicate DistinctIds(rows: seq<PendingRow>) {
    forall i, j :: 0 <= i < j < |rows| ==> rows[i].id != rows[j].id
  }

  lemma OneMoreId(rows: seq<PendingRow>, row: PendingRow)
    requires DistinctIds(rows) && forall i :: 0 <= i < |rows| ==> rows[i].id != row.id
    ensures DistinctIds(rows + [row])
  {
  }

  lemma {:induction false} ReadRowsDistinct(ds: Table, batch: seq<string>, unread: set<string>)
    requires forall i :: 0 <= i < |batch| ==> batch[i] in ds
    requires Distinct(batch)
    ensures DistinctIds(ReadRows(ds, batch, unread))
  {
    if batch != [] {
      var n := |batch| - 1;
      var before := ReadRows(ds, batch[..n], unread);
      LastIsNew(batch);
      ReadRowsDistinct(ds, batch[..n], unread);
      forall i | 0 <= i < |before| ensures before[i].id != batch[n] {
        assert before[i].id in batch[..n];
      }
      OneMoreId(before, PendingRow(batch[n], ds[batch[n]].attempts));
    }
  }

  /** The table after the rows `ps` were retried in order. */
  function RetryAll(ds: Table, ps: seq<PendingRow>, posts: seq<Post>): Table
    requires |posts| == |ps|
  {
    if ps == [] then ds
    else Retry(RetryAll(ds, ps[..|ps| - 1], posts[..|ps| - 1]), ps[|ps| - 1], posts[|ps| - 1])
  }

  class Service {
    var deliveries: Table
    var hooks: set<string>

    constructor ()
      ensures deliveries == map[] && hooks == {}
    {
      deliveries := map[];
      hooks := {};
    }

    /** The first attempt. A failing insert is ignored, and then there is no row to mark either. */
    method Deliver(id: string, hook: string, created: int, inserted: bool, post: Post)
      requires id !in deliveries
      modifies this`deliveries
      ensures deliveries ==
                if inserted then MarkFirst(InsertRow(old(deliveries), id, hook, created), id, post)
                else old(deliveries)
    {
      if inserted { deliveries := deliveries[id := Delivery(hook, Pending, 1, None, created)]; }
      if post.success {
        MarkDelivery(id, Delivered, post.recorded);
      } else {
        MarkDelivery(id, Failed, post.recorded);
      }
    }

    method MarkDelivery(id: string, status: Status, recorded: bool)
      modifies this`deliveries
      ensures deliveries ==
                if id in old(deliveries) && recorded
                then old(deliveries)[id := old(deliveries)[id].(status := status)] else old(deliveries)
    {
      if id in deliveries && recorded {
        deliveries := deliveries[id := deliveries[id].(status := status)];
      }
    }

    method RetryOne(p: PendingRow, post: Post)
      modifies this`deliveries
      ensures deliveries == Retry(old(deliveries), p, post)
    {
      if post.success {
        if p.id in deliveries && post.recorded {
          var d := deliveries[p.id];
          deliveries := deliveries[p.id := d.(status := Delivered, attempts := d.attempts + 1)];
        }
        return;
      }
      MarkRetryRow(p, post.end, post.recorded);
    }

    method MarkRetryRow(p: PendingRow, now: int, recorded: bool)
      modifies this`deliveries
      ensures deliveries ==
                if p.id in old(deliveries) && recorded
                then old(deliveries)[p.id := MarkRetry(old(deliveries)[p.id], p.attempts, now)] else old(deliveries)
    {
      var attempts := p.attempts + 1;
      if p.id !in deliveries || !recorded { return; }
      var d := deliveries[p.id];
      if attempts >= MAX_ATTEMPTS {
        deliveries := deliveries[p.id := d.(attempts := attempts, next := None)];
        return;
      }
      deliveries := deliveries[p.id := d.(attempts := attempts, next := Some(now + Backoff(attempts)))];
    }

    /**
     `batch` is the database's answer, `unread` the rows of it that cannot be scanned and
     are passed over, `posts` how the attempts at the others go.
     */
    method RunOnce(now: int, batch: seq<string>, unread: set<string>, posts: seq<Post>)
      requires IsBatch(deliveries, hooks, now, batch) && |posts| == |ReadRows(deliveries, batch, unread)|
      modifies this`deliveries
      ensures deliveries == RetryAll(old(deliveries), ReadRows(old(deliveries), batch, unread), posts)
    {
      var pending := ReadBatch(batch, unread);
      for i := 0 to |pending|
        invariant deliveries == RetryAll(old(deliveries), pending[..i], posts[..i])
      {
        RetryOne(pending[i], posts[i]);
        TakeTwice(pending, i);
        TakeTwice(posts, i);
      }
      Takes([], pending, PendingRow("", 0));
      assert posts[..|pending|] == posts;
    }

    /** The loop over the rows of the query. */
    method ReadBatch(batch: seq<string>, unread: set<string>) returns (pending: seq<PendingRow>)
      requires forall i :: 0 <= i < |batch| ==> batch[i] in deliveries
      ensures pending == ReadRows(deliveries, batch, unread)
    {
      pending := [];
      for i := 0 to |batch|
        invariant pending == ReadRows(deliveries, batch[..i], unread)
      {
        TakeTwice(batch, i);
        if batch[i] !in unread { pending := pending + [PendingRow(batch[i], deliveries[batch[i]].attempts)]; }
      }
      assert batch[..|batch|] == batch;
    }
  }

  // ---------------------------------------------------------------- the system as a state machine

  /** The POSTs whose outcome could be written down. */
  function Recorded(posts: seq<Post>): (recorded: seq<Post>)
    ensures |recorded| <= |posts|
  {
    if posts == [] then []
    else
      var before := Recorded(posts[..|posts| - 1]);
      if posts[|posts| - 1].recorded then before + [posts[|posts| - 1]] else before
  }

  /** How many outcomes could not be written down. */
  function Lost(posts: seq<Post>): nat {
    |posts| - |Recorded(posts)|
  }

  /** The worker's clock, and the rows of the current round it has yet to retry. */
  datatype Worker = Worker(now: int, queue: seq<PendingRow>)

  /** `log` keeps what happened to each delivery: its POSTs, in order. */
  datatype State = State(table: Table, hooks: set<string>, inFlight: set<string>, worker: Worker,
                         log: map<string, seq<Post>>)

  datatype Step =
    | Insert(id: string, hook: string, created: int)
    | FirstResult(id: string, post: Post)
    | Crash(id: string)
    | BeginRound(now: int, batch: seq<string>, unread: set<string>)
    | RetryHead(post: Post)
    | WorkerStops
    | AddHook(hook: string)
    | DropHook(hook: string)

  ghost predicate Enabled(s: State, step: Step) {
    match step
    case Insert(id, _, _) => id !in s.log
    case FirstResult(id, post) => id in s.inFlight && post.start <= post.end
    case Crash(id) => id in s.inFlight
    case BeginRound(now, batch, _) =>
      s.worker.queue == [] && s.worker.now <= now && IsBatch(s.table, s.hooks, now, batch)
    case RetryHead(post) => s.worker.queue != [] && s.worker.now <= post.start <= post.end
    case _ => true
  }

  function Logged(log: map<string, seq<Post>>, id: string, post: Post): map<string, seq<Post>> {
    log[id := (if id in log then log[id] else []) + [post]]
  }

  ghost function Apply(s: State, step: Step): State
    requires Enabled(s, step)
  {
    match step
    case Insert(id, hook, created) =>
      s.(table := InsertRow(s.table, id, hook, created), inFlight := s.inFlight + {id}, log := s.log[id := []])
    case FirstResult(id, post) =>
      s.(table := MarkFirst(s.table, id, post), inFlight := s.inFlight - {id}, log := Logged(s.log, id, post))
    case Crash(id) => s.(inFlight := s.inFlight - {id})
    case BeginRound(now, batch, unread) => s.(worker := Worker(now, ReadRows(s.table, batch, unread)))
    case RetryHead(post) =>
      var p := s.worker.queue[0];
      s.(table := Retry(s.table, p, post), worker := Worker(post.end, s.worker.queue[1..]),
         log := Logged(s.log, p.id, post))
    case WorkerStops => s.(worker := s.worker.(queue := []))
    case AddHook(hook) => s.(hooks := s.hooks + {hook})
    // Deleting a subscription deletes its deliveries.
    case DropHook(hook) =>
      s.(hooks := s.hooks - {hook}, table := map id | id in s.table && s.table[id].hook != hook :: s.table[id])
  }

  /** The time before which nothing may be sent after these recorded POSTs: the backoff, from the second one on. */
  function Due(recorded: seq<Post>): Option<int> {
    var n := |recorded|;
    if 2 <= n < MAX_ATTEMPTS then Some(recorded[n - 1].end + Backoff(n)) else None
  }

  lemma DueAfter(recorded: seq<Post>, post: Post)
    ensures var n := |recorded| + 1;
            Due(recorded + [post]) == if 2 <= n < MAX_ATTEMPTS then Some(post.end + Backoff(n)) else None
  {
    LastAdded(recorded, post);
  }

  function NotBefore(posts: seq<Post>): Option<int> {
    Due(Recorded(posts))
  }

  /** A row's columns agree with what happened. */
  ghost predicate RowOk(d: Delivery, posts: seq<Post>) {
    && 1 <= d.attempts <= MAX_ATTEMPTS
    && (d.status.Pending? ==> d.attempts == 1 && Recorded(posts) == [])
    && (!d.status.Pending? ==> |Recorded(posts)| == d.attempts)
    && (!d.status.Delivered? && (d.attempts == 1 || d.attempts == MAX_ATTEMPTS) ==> d.next == None)
    && (d.status.Failed? && 1 < d.attempts < MAX_ATTEMPTS ==> d.next == NotBefore(posts))
  }

  /** Every POST keeps to the backoff after the last recorded one before it, and none follows the sixth. */
  ghost predicate Spaced(posts: seq<Post>) {
    forall k :: 0 <= k < |posts| ==>
      && posts[k].start <= posts[k].end && |Recorded(posts[..k])| < MAX_ATTEMPTS
      && (NotBefore(posts[..k]).Some? ==> NotBefore(posts[..k]).value <= posts[k].start)
  }

  lemma {:induction false} OneMorePost(posts: seq<Post>, post: Post)
    ensures Recorded(posts + [post]) == if post.recorded then Recorded(posts) + [post] else Recorded(posts)
  {
    Takes(posts, [], post);
  }

  lemma {:induction false} StillSpaced(posts: seq<Post>, post: Post)
    requires Spaced(posts) && post.start <= post.end && |Recorded(posts)| < MAX_ATTEMPTS
    requires NotBefore(posts).Some? ==> NotBefore(posts).value <= post.start
    ensures Spaced(posts + [post])
  {
    var all := posts + [post];
    Takes(posts, [], post);
    forall k | 0 <= k < |posts| ensures all[..k] == posts[..k] && all[k] == posts[k] {
    }
  }

  /** A queued row is still as it was read, unless it was deleted, and it was due when it was read. */
  ghost predicate QueueEntryOk(s: State, p: PendingRow) {
    && p.id in s.log && p.id !in s.inFlight && 1 <= p.attempts < MAX_ATTEMPTS
    && |Recorded(s.log[p.id])| == p.attempts
    && (p.id in s.table ==> s.table[p.id].status.Failed? && s.table[p.id].attempts == p.attempts)
    && (NotBefore(s.log[p.id]).Some? ==> NotBefore(s.log[p.id]).value <= s.worker.now)
  }

  ghost predicate Inv(s: State) {
    && (forall id :: id in s.table ==> id in s.log && RowOk(s.table[id], s.log[id]))
    && (forall id :: id in s.inFlight ==>
          id in s.log && s.log[id] == [] && (id in s.table ==> s.table[id].status.Pending?))
    && (forall id :: id in s.log ==> |Recorded(s.log[id])| <= MAX_ATTEMPTS && Spaced(s.log[id]))
    && (forall i :: 0 <= i < |s.worker.queue| ==> QueueEntryOk(s, s.worker.queue[i]))
    && DistinctIds(s.worker.queue)
  }

  lemma InvBeginRound(s: State, step: Step)
    requires Inv(s) && step.BeginRound? && Enabled(s, step)
    ensures Inv(Apply(s, step))
  {
    var s' := Apply(s, step);
    ReadRowsDistinct(s.table, step.batch, step.unread);
    forall i | 0 <= i < |s'.worker.queue| ensures QueueEntryOk(s', s'.worker.queue[i]) {
      var id := s'.worker.queue[i].id;
      assert Eligible(s.table, s.hooks, step.now, id);
      assert RowOk(s.table[id], s.log[id]);
    }
  }

  lemma {:induction false} NotBeforeAfter(posts: seq<Post>, post: Post)
    ensures var n := |Recorded(posts)| + 1;
            NotBefore(posts + [post]) ==
            if !post.recorded then NotBefore(posts)
            else if 2 <= n < MAX_ATTEMPTS then Some(post.end + Backoff(n)) else None
  {
    OneMorePost(posts, post);
    DueAfter(Recorded(posts), post);
  }

  /** A row that was retried agrees with the history it now has. */
  lemma {:induction false} RetriedRowOk(ds: Table, p: PendingRow, posts: seq<Post>, post: Post)
    requires p.id in ds && RowOk(ds[p.id], posts) && ds[p.id].status.Failed?
    requires ds[p.id].attempts == p.attempts < MAX_ATTEMPTS
    ensures RowOk(Retry(ds, p, post)[p.id], posts + [post])
  {
    OneMorePost(posts, post);
    NotBeforeAfter(posts, post);
  }

  /** The row and the history of the delivery that was retried. */
  lemma InvRetryRow(s: State, post: Post)
    requires Inv(s) && Enabled(s, RetryHead(post))
    ensures var p := s.worker.queue[0];
            var s' := Apply(s, RetryHead(post));
            && (p.id in s'.table ==> RowOk(s'.table[p.id], s'.log[p.id]))
            && |Recorded(s'.log[p.id])| <= MAX_ATTEMPTS && Spaced(s'.log[p.id])
  {
    var p := s.worker.queue[0];
    assert QueueEntryOk(s, p);
    OneMorePost(s.log[p.id], post);
    StillSpaced(s.log[p.id], post);
    if p.id in s.table { RetriedRowOk(s.table, p, s.log[p.id], post); }
  }

  lemma InvRetryHead(s: State, post: Post)
    requires Inv(s) && Enabled(s, RetryHead(post))
    ensures Inv(Apply(s, RetryHead(post)))
  {
    var s' := Apply(s, RetryHead(post));
    var p := s.worker.queue[0];
    InvRetryRow(s, post);
    assert QueueEntryOk(s, p);
    TailDistinct(s.worker.queue);
    forall i | 0 <= i < |s'.worker.queue| ensures QueueEntryOk(s', s'.worker.queue[i]) {
      RestOfQueueOk(s, post, i);
    }
  }

  lemma TailDistinct(rows: seq<PendingRow>)
    requires DistinctIds(rows) && rows != []
    ensures DistinctIds(rows[1..])
  {
    assert forall i :: 0 <= i < |rows| - 1 ==> rows[1..][i] == rows[i + 1];
  }

  lemma RestOfQueueOk(s: State, post: Post, i: nat)
    requires Inv(s) && Enabled(s, RetryHead(post)) && i + 1 < |s.worker.queue|
    ensures QueueEntryOk(Apply(s, RetryHead(post)), s.worker.queue[i + 1])
  {
    assert QueueEntryOk(s, s.worker.queue[i + 1]);
    assert s.worker.queue[0].id != s.worker.queue[i + 1].id;
  }

  /** A first attempt's row agrees with its history of one POST. */
  lemma {:induction false} FirstRowOk(ds: Table, id: string, posts: seq<Post>, post: Post)
    requires id in ds && RowOk(ds[id], posts) && ds[id].status.Pending?
    ensures RowOk(MarkFirst(ds, id, post)[id], posts + [post])
  {
    OneMorePost(posts, post);
    NotBeforeAfter(posts, post);
  }

  lemma FirstPost(post: Post)
    requires post.start <= post.end
    ensures |Recorded([] + [post])| <= 1 && Spaced([] + [post])
  {
    assert Spaced([]);
    OneMorePost([], post);
    StillSpaced([], post);
  }

  lemma InvFirstResult(s: State, id: string, post: Post)
    requires Inv(s) && Enabled(s, FirstResult(id, post))
    ensures Inv(Apply(s, FirstResult(id, post)))
  {
    var s' := Apply(s, FirstResult(id, post));
    assert s.log[id] == [] && s'.log[id] == [] + [post];
    FirstPost(post);
    if id in s.table { FirstRowOk(s.table, id, s.log[id], post); }
    forall i | 0 <= i < |s'.worker.queue| ensures QueueEntryOk(s', s'.worker.queue[i]) {
      assert QueueEntryOk(s, s.worker.queue[i]);
    }
  }

  lemma InvInsert(s: State, step: Step)
    requires Inv(s) && step.Insert? && Enabled(s, step)
    ensures Inv(Apply(s, step))
  {
    var s' := Apply(s, step);
    forall i | 0 <= i < |s'.worker.queue| ensures QueueEntryOk(s', s'.worker.queue[i]) {
      assert QueueEntryOk(s, s.worker.queue[i]);
    }
  }

  /** The invariant holds in every state of every run. */
  lemma StepKeepsInv(s: State, step: Step)
    requires Inv(s) && Enabled(s, step)
    ensures Inv(Apply(s, step))
  {
    match step
    case Insert(_, _, _) => InvInsert(s, step);
    case FirstResult(id, post) => InvFirstResult(s, id, post);
    case BeginRound(_, _, _) => InvBeginRound(s, step);
    case RetryHead(post) => InvRetryHead(s, post);
    case WorkerStops =>
    case _ =>
      var s' := Apply(s, step);
      forall i | 0 <= i < |s'.worker.queue| ensures QueueEntryOk(s', s'.worker.queue[i]) {
        assert QueueEntryOk(s, s.worker.queue[i]);
      }
  }
}
