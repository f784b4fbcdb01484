/** Retry bounds and termination over any sequence of non-overlapping ticks of either worker. */
module Retries {
  import opened Prelude
  import opened Schema
  import opened Outbox

  /** The largest retry count a record can reach; a negative setting behaves as 0. */
  function Cap(maxRetries: int): nat {
    Max(0, maxRetries)
  }

  /** One tick's input: what the provider (or the failed lookup) said about each record. */
  type Replies = Id -> Reply

  /** tables[i] is the table before tick i, and the last one what the last tick and the calls after it left. */
  ghost predicate Ticks<P>(tables: seq<map<Id, Record<P>>>, replies: seq<Replies>, maxRetries: int) {
    && |tables| == |replies| + 1
    && (forall i | 0 <= i < |replies| :: TickOf(tables[i], tables[i + 1], replies[i], maxRetries))
  }

  /** Exactly what a tick makes of a record: sent, failed, retried, or left as it was. */
  lemma TickExactly<P>(before: map<Id, Record<P>>, after: map<Id, Record<P>>, replies: Replies, maxRetries: int, r: Id)
    requires TickOf(before, after, replies, maxRetries) && r in before
    ensures var row := before[r];
            var queued := row.delivery == Queued;
            var failing := queued && (replies(r) == Refused || replies(r) == Threw);
            && r in after && after[r] == row.(delivery := after[r].delivery, retries := after[r].retries)
            && (after[r].delivery == Sent <==> row.delivery == Sent || (queued && replies(r) == Delivered))
            && (after[r].delivery == Failed <==>
                  || row.delivery == Failed || (queued && replies(r) == Unresolved)
                  || (failing && row.retries >= maxRetries))
            && after[r].retries == row.retries + (if failing && row.retries < maxRetries then 1 else 0)
  {
  }

  /** Retry counts within the cap. */
  ghost predicate WithinCap<P>(records: map<Id, Record<P>>, maxRetries: int) {
    forall r | r in records :: records[r].retries <= Cap(maxRetries)
  }

  lemma OutcomeWithinCap<P>(row: Record<P>, reply: Reply, maxRetries: int)
    requires row.retries <= Cap(maxRetries)
    ensures Outcome(row, reply, maxRetries).retries <= Cap(maxRetries)
    ensures row.delivery == Queued && Outcome(row, reply, maxRetries).delivery == Queued ==>
              Outcome(row, reply, maxRetries).retries == row.retries + 1
    ensures row.delivery != Queued ==> Outcome(row, reply, maxRetries) == row
  {
  }

  /** Ticks keep retry counts within the cap, arrivals included. */
  lemma {:induction false} CapKept<P>(tables: seq<map<Id, Record<P>>>, replies: seq<Replies>, maxRetries: int, n: nat)
    requires Ticks(tables, replies, maxRetries) && WithinCap(tables[0], maxRetries) && n < |tables|
    ensures WithinCap(tables[n], maxRetries)
  {
    if n > 0 {
      CapKept(tables, replies, maxRetries, n - 1);
      assert TickOf(tables[n - 1], tables[n], replies[n - 1], maxRetries);
      forall r | r in tables[n] ensures tables[n][r].retries <= Cap(maxRetries) {
        if r in tables[n - 1] {
          OutcomeWithinCap(tables[n - 1][r], replies[n - 1](r), maxRetries);
        }
      }
    }
  }

  /** A record still queued after k more ticks has been retried exactly k more times, and never past the cap. */
  lemma {:induction false} StillQueuedMeansRetried<P>(tables: seq<map<Id, Record<P>>>, replies: seq<Replies>,
                                                      maxRetries: int, r: Id, i: nat, k: nat)
    requires Ticks(tables, replies, maxRetries) && i + k < |tables|
    requires r in tables[i] && tables[i][r].retries <= Cap(maxRetries)
    ensures r in tables[i + k] && tables[i + k][r].retries <= Cap(maxRetries)
    ensures tables[i + k][r].delivery == Queued ==>
              tables[i][r].delivery == Queued && tables[i + k][r].retries == tables[i][r].retries + k
  {
    if k > 0 {
      var j := i + k - 1;
      StillQueuedMeansRetried(tables, replies, maxRetries, r, i, k - 1);
      assert TickOf(tables[j], tables[j + 1], replies[j], maxRetries);
      OutcomeWithinCap(tables[j][r], replies[j](r), maxRetries);
    }
  }

  /** Sent and failed records never change again. */
  lemma {:induction false} SettledForGood<P>(tables: seq<map<Id, Record<P>>>, replies: seq<Replies>, maxRetries: int,
                                             r: Id, i: nat, k: nat)
    requires Ticks(tables, replies, maxRetries) && i + k < |tables|
    requires r in tables[i] && tables[i][r].delivery != Queued
    ensures r in tables[i + k] && tables[i + k][r] == tables[i][r]
  {
    if k > 0 {
      var j := i + k - 1;
      SettledForGood(tables, replies, maxRetries, r, i, k - 1);
      assert TickOf(tables[j], tables[j + 1], replies[j], maxRetries);
    }
  }

  /** Whatever the provider answers, a record leaves the queue within cap + 1 - retries ticks. */
  lemma LeavesTheQueue<P>(tables: seq<map<Id, Record<P>>>, replies: seq<Replies>, maxRetries: int, r: Id, i: nat,
                          k: nat)
    requires Ticks(tables, replies, maxRetries) && i + k < |tables|
    requires r in tables[i] && tables[i][r].retries <= Cap(maxRetries)
    requires k >= Cap(maxRetries) + 1 - tables[i][r].retries
    ensures r in tables[i + k] && tables[i + k][r].delivery != Queued
  {
    StillQueuedMeansRetried(tables, replies, maxRetries, r, i, k);
  }

  /** The ticks before index n at whose start r was queued: the only ones that can dispatch it. */
  ghost function Attempts<P>(tables: seq<map<Id, Record<P>>>, r: Id, n: nat): nat
    requires n <= |tables|
  {
    if n == 0 then 0
    else Attempts(tables, r, n - 1) + (if QueuedNow(tables[n - 1], r) then 1 else 0)
  }

  /** What the retry count says about the attempts so far: all of them failed but a last one that settled the record. */
  predicate AttemptsAgree<P>(row: Record<P>, attempts: nat) {
    attempts <= row.retries + (if row.delivery == Queued then 0 else 1)
  }

  /** The retries a record had before the first tick; one that arrives later has none. */
  function RetriesAtFirst<P>(tables: seq<map<Id, Record<P>>>, r: Id): nat
    requires tables != []
  {
    if r in tables[0] then tables[0][r].retries else 0
  }

  lemma {:induction false} AttemptsCounted<P>(tables: seq<map<Id, Record<P>>>, replies: seq<Replies>, maxRetries: int,
                                              r: Id, n: nat)
    requires Ticks(tables, replies, maxRetries) && n < |tables|
    ensures if r in tables[n] then AttemptsAgree(tables[n][r], Attempts(tables, r, n) + RetriesAtFirst(tables, r))
            else Attempts(tables, r, n) + RetriesAtFirst(tables, r) == 0 && r !in tables[0]
  {
    if n > 0 {
      AttemptsCounted(tables, replies, maxRetries, r, n - 1);
      TickCounts(tables[n - 1], tables[n], replies[n - 1], maxRetries, r,
                 Attempts(tables, r, n - 1) + RetriesAtFirst(tables, r));
    }
  }

  /** A record, there from the start or arriving later, is queued at the start of at most cap + 1 ticks. */
  lemma AttemptBound<P>(tables: seq<map<Id, Record<P>>>, replies: seq<Replies>, maxRetries: int, r: Id, n: nat)
    requires Ticks(tables, replies, maxRetries) && WithinCap(tables[0], maxRetries) && n < |tables|
    ensures r in tables[n] ==> AttemptsAgree(tables[n][r], Attempts(tables, r, n) + RetriesAtFirst(tables, r))
    ensures r !in tables[n] ==> Attempts(tables, r, n) == 0 && r !in tables[0]
    ensures Attempts(tables, r, n) + RetriesAtFirst(tables, r) <= Cap(maxRetries) + 1
  {
    AttemptsCounted(tables, replies, maxRetries, r, n);
    CapKept(tables, replies, maxRetries, n);
  }

  ghost predicate QueuedNow<P>(records: map<Id, Record<P>>, r: Id) {
    r in records && records[r].delivery == Queued
  }

  lemma TickCounts<P>(before: map<Id, Record<P>>, after: map<Id, Record<P>>, reply: Replies, maxRetries: int, r: Id,
                      attempts: nat)
    requires TickOf(before, after, reply, maxRetries)
    requires if r in before then AttemptsAgree(before[r], attempts) else attempts == 0
    ensures if r in after then AttemptsAgree(after[r], attempts + (if QueuedNow(before, r) then 1 else 0))
            else r !in before
  {
    if r in before {
      OutcomeCounts(before[r], reply(r), maxRetries, attempts);
    }
  }

  lemma OutcomeCounts<P>(row: Record<P>, reply: Reply, maxRetries: int, attempts: nat)
    requires AttemptsAgree(row, attempts)
    ensures AttemptsAgree(Outcome(row, reply, maxRetries), attempts + (if row.delivery == Queued then 1 else 0))
  {
  }

  // ------------------------------------------------------------------------- the workers, tick after tick

  /** How many of the ticks dispatched r. */
  function Dispatches(lists: seq<seq<Id>>, r: Id): nat {
    if lists == [] then 0
    else Dispatches(lists[..|lists| - 1], r) + (if r in lists[|lists| - 1] then 1 else 0)
  }

  /** Each tick dispatches queued records of the table it found, each at most once, oldest first. */
  ghost predicate ListsFit<P>(tables: seq<map<Id, Record<P>>>, lists: seq<seq<Id>>) {
    |lists| <= |tables| && forall i | 0 <= i < |lists| :: Chain(tables[i], lists[i])
  }

  lemma {:induction false} DispatchedWhileQueued<P>(tables: seq<map<Id, Record<P>>>, lists: seq<seq<Id>>, r: Id)
    requires ListsFit(tables, lists)
    ensures Dispatches(lists, r) <= Attempts(tables, r, |lists|)
  {
    if lists != [] {
      DispatchedWhileQueued(tables, lists[..|lists| - 1], r);
    }
  }

  /** In any sequence of ticks, each record is dispatched at most cap + 1 times. */
  lemma DispatchBound<P>(tables: seq<map<Id, Record<P>>>, replies: seq<Replies>, maxRetries: int, lists: seq<seq<Id>>,
                         r: Id)
    requires Ticks(tables, replies, maxRetries) && WithinCap(tables[0], maxRetries)
    requires ListsFit(tables, lists) && |lists| < |tables|
    ensures Dispatches(lists, r) <= Cap(maxRetries) + 1
  {
    DispatchedWhileQueued(tables, lists, r);
    AttemptBound(tables, replies, maxRetries, r, |lists|);
  }

  lemma TickThenGrowth<P>(a: map<Id, Record<P>>, b: map<Id, Record<P>>, c: map<Id, Record<P>>, replies: Replies,
                          maxRetries: int)
    requires TickOf(a, b, replies, maxRetries) && Grown(b, c)
    ensures TickOf(a, c, replies, maxRetries)
  {
  }

  lemma TicksExtend<P>(tables: seq<map<Id, Record<P>>>, replies: seq<Replies>, maxRetries: int,
                       after: map<Id, Record<P>>, reply: Replies)
    requires Ticks(tables, replies, maxRetries) && TickOf(tables[|replies|], after, reply, maxRetries)
    ensures Ticks(tables + [after], replies + [reply], maxRetries)
  {
  }

  /** What other calls do at each wait of one tick, and then until the next tick. */
  datatype Interference = Interference(during: seq<Wait>, afterwards: Wait)

  ghost predicate Allowed(others: seq<Interference>) {
    forall i | 0 <= i < |others| :: Harmless(others[i].afterwards) && AllHarmless(others[i].during)
  }

  /** Ticks of the activation-email worker, one after another. */
  method PollEmails(worker: OutboxWorker, providers: seq<Replies>, others: seq<Interference>)
    returns (lists: seq<seq<Id>>, ghost tables: seq<map<Id, Email>>, ghost replies: seq<Replies>)
    requires |providers| == |others| && Allowed(others)
    requires forall i, r | 0 <= i < |providers| :: providers[i](r) != Unresolved
    requires WithinCap(worker.database.tables.emails, worker.maxRetries)
    modifies worker.database
    ensures Ticks(tables, replies, worker.maxRetries) && ListsFit(tables, lists) && |lists| == |providers| == |replies|
    ensures tables[0] == old(worker.database.tables).emails && tables[|replies|] == worker.database.tables.emails
    ensures forall r :: Dispatches(lists, r) <= Cap(worker.maxRetries) + 1
  {
    lists, replies := [], [];
    tables := [worker.database.tables.emails];
    for i := 0 to |providers|
      invariant |lists| == |replies| == i
      invariant Ticks(tables, replies, worker.maxRetries) && ListsFit(tables, lists)
      invariant tables[0] == old(worker.database.tables).emails && tables[i] == worker.database.tables.emails
    {
      ghost var before := worker.database.tables;
      var found, list;
      ghost var jobs;
      found, list, jobs := worker.ProcessQueuedRecords(providers[i], others[i].during);
      ghost var reply := RepliesOf(before, found, jobs, worker.maxRetries);
      EmailTickDone(before, found, providers[i], others[i].during, jobs, worker.maxRetries);
      ghost var mid := worker.database.tables.emails;
      OtherCalls(worker.database, others[i].afterwards);
      TickThenGrowth(tables[i], mid, worker.database.tables.emails, reply, worker.maxRetries);
      TicksExtend(tables, replies, worker.maxRetries, worker.database.tables.emails, reply);
      lists, replies, tables := lists + [list], replies + [reply], tables + [worker.database.tables.emails];
    }
    forall r ensures Dispatches(lists, r) <= Cap(worker.maxRetries) + 1 {
      DispatchBound(tables, replies, worker.maxRetries, lists, r);
    }
  }

  /** Ticks of the deletion-notice worker, one after another. */
  method PollNotices(worker: AccountDeletionNotificationWorker, providers: seq<Replies>, others: seq<Interference>)
    returns (lists: seq<seq<Id>>, ghost tables: seq<map<Id, Notice>>)
    requires |providers| == |others| && Allowed(others)
    requires forall i, r | 0 <= i < |providers| :: providers[i](r) != Unresolved
    requires WithinCap(worker.database.tables.notices, worker.maxRetries)
    modifies worker.database
    ensures Ticks(tables, providers, worker.maxRetries) && ListsFit(tables, lists) && |lists| == |providers|
    ensures tables[0] == old(worker.database.tables).notices && tables[|providers|] == worker.database.tables.notices
    ensures forall r :: Dispatches(lists, r) <= Cap(worker.maxRetries) + 1
  {
    lists := [];
    tables := [worker.database.tables.notices];
    for i := 0 to |providers|
      invariant |lists| == i
      invariant Ticks(tables, providers[..i], worker.maxRetries) && ListsFit(tables, lists)
      invariant tables[0] == old(worker.database.tables).notices && tables[i] == worker.database.tables.notices
    {
      ghost var before := worker.database.tables;
      var list;
      ghost var jobs;
      list, jobs := worker.ProcessQueuedRecords(providers[i], others[i].during);
      NoticeTickDone(before, list, providers[i], others[i].during, jobs, worker.maxRetries);
      ghost var mid := worker.database.tables.notices;
      OtherCalls(worker.database, others[i].afterwards);
      TickThenGrowth(tables[i], mid, worker.database.tables.notices, providers[i], worker.maxRetries);
      TicksExtend(tables, providers[..i], worker.maxRetries, worker.database.tables.notices, providers[i]);
      assert providers[..i + 1] == providers[..i] + [providers[i]];
      lists, tables := lists + [list], tables + [worker.database.tables.notices];
    }
    assert providers[..|providers|] == providers;
    forall r ensures Dispatches(lists, r) <= Cap(worker.maxRetries) + 1 {
      DispatchBound(tables, providers, worker.maxRetries, lists, r);
    }
  }

  // -------------------------------------------------------------------------------------------- the weight

  ghost function Pick(s: set<Id>): (x: Id)
    requires s != {}
    ensures x in s
  {
    var x :| x in s; x
  }

  /** Dispatches a queued record may still cost. */
  function Left<P>(row: Record<P>, maxRetries: int): nat {
    if row.delivery == Queued && row.retries <= Cap(maxRetries) then Cap(maxRetries) + 1 - row.retries else 0
  }

  ghost function Weight<P>(records: map<Id, Record<P>>, ids: set<Id>, maxRetries: int): nat
    requires ids <= records.Keys
  {
    if ids == {} then 0
    else var x := Pick(ids); Left(records[x], maxRetries) + Weight(records, ids - {x}, maxRetries)
  }

  ghost function QueuedIn<P>(records: map<Id, Record<P>>, ids: set<Id>): set<Id>
    requires ids <= records.Keys
  {
    set r | r in ids && records[r].delivery == Queued
  }

  /** Over the records it started with, a tick lowers the total by at least the number then queued. */
  lemma {:induction false} TickLowersWeight<P>(before: map<Id, Record<P>>, after: map<Id, Record<P>>, replies: Replies,
                                               maxRetries: int, ids: set<Id>)
    requires TickOf(before, after, replies, maxRetries) && WithinCap(before, maxRetries) && ids <= before.Keys
    ensures ids <= after.Keys
    ensures Weight(after, ids, maxRetries) + |QueuedIn(before, ids)| <= Weight(before, ids, maxRetries)
    decreases |ids|
  {
    assert ids <= after.Keys by {
      forall r | r in ids ensures r in after {}
    }
    if ids != {} {
      var x := Pick(ids);
      TickLowersWeight(before, after, replies, maxRetries, ids - {x});
      OutcomeWithinCap(before[x], replies(x), maxRetries);
      assert QueuedIn(before, ids) ==
        if before[x].delivery == Queued then QueuedIn(before, ids - {x}) + {x} else QueuedIn(before, ids - {x});
    } else {
      assert QueuedIn(before, ids) == {};
    }
  }
}
