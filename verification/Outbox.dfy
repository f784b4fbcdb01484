/**
 * The two outbox workers. One tick reads the queued records, oldest first, and dispatches each once; while it waits
 * other calls may write anything. When they leave delivery status and retry counts to the tick, as all calls but
 * another tick do, its effect on each record is that of the record's own reply.
 */
module Outbox {
  import opened Prelude
  import opened Schema
  import opened Database

  /** How one dispatch attempt ended; a thrown error counts as a failed attempt. */
  datatype Reply = Delivered | Refused | Threw | Unresolved

  /** The record after one attempt, given the retry count the tick had read when it started. */
  function Settled<P>(row: Record<P>, retriesRead: nat, delivered: bool, maxRetries: int): Record<P> {
    if delivered then row.(delivery := Sent)
    else if retriesRead < maxRetries then row.(retries := row.retries + 1)
    else row.(delivery := Failed)
  }

  /** What a whole tick does to one record: settled ones stay, queued ones are dispatched or given up. */
  function Outcome<P>(row: Record<P>, reply: Reply, maxRetries: int): Record<P> {
    if row.delivery != Queued then row
    else if reply == Unresolved then row.(delivery := Failed)
    else Settled(row, row.retries, reply == Delivered, maxRetries)
  }

  /** A record as the services insert it. */
  predicate Untried<P>(row: Record<P>) {
    row.delivery == Queued && row.retries == 0
  }

  /** Rows may have been added, untried; none has changed. */
  ghost predicate Grown<P>(a: map<Id, Record<P>>, b: map<Id, Record<P>>) {
    && (forall r | r in a :: r in b && b[r] == a[r])
    && (forall r | r in b && r !in a :: Untried(b[r]))
  }

  /** Every record of `before` is in `after` with the outcome of its reply; further records have arrived untried. */
  ghost predicate TickOf<P>(before: map<Id, Record<P>>, after: map<Id, Record<P>>, replies: Id -> Reply,
                            maxRetries: int)
  {
    && (forall r | r in before :: r in after && after[r] == Outcome(before[r], replies(r), maxRetries))
    && (forall r | r in after && r !in before :: Untried(after[r]))
  }

  /** Queued records, each once, in the order of their dispatch times. */
  ghost predicate Chain<P>(records: map<Id, Record<P>>, q: seq<Id>) {
    && (forall i | 0 <= i < |q| :: q[i] in records && records[q[i]].delivery == Queued)
    && (forall i, j | 0 <= i < j < |q| :: q[i] != q[j] && records[q[i]].dispatchAt <= records[q[j]].dispatchAt)
  }

  /** A result of `findByStatus('queued')`: every queued record once, oldest dispatch time first. */
  ghost predicate IsQueue<P>(records: map<Id, Record<P>>, q: seq<Id>) {
    Chain(records, q) && forall r | r in records && records[r].delivery == Queued :: r in q
  }

  /** SELECT .. WHERE delivery_status = 'queued' ORDER BY dispatch_timestamp. */
  method FindQueued<P>(records: map<Id, Record<P>>) returns (q: seq<Id>)
    ensures IsQueue(records, q)
  {
    q := [];
    var left := set r | r in records && records[r].delivery == Queued;
    while left != {}
      invariant forall r | r in left :: r in records && records[r].delivery == Queued
      invariant Chain(records, q)
      invariant forall i, r | 0 <= i < |q| && r in left ::
                  q[i] != r && records[q[i]].dispatchAt <= records[r].dispatchAt
      invariant forall r | r in records && records[r].delivery == Queued :: r in left || r in q
      decreases left
    {
      var oldest :| oldest in left;
      var rest := left;
      while rest != {}
        invariant rest <= left && oldest in left
        invariant forall r | r in left && r !in rest :: records[oldest].dispatchAt <= records[r].dispatchAt
        decreases rest
      {
        var r :| r in rest;
        rest := rest - {r};
        if records[r].dispatchAt < records[oldest].dispatchAt {
          oldest := r;
        }
      }
      q := q + [oldest];
      left := left - {oldest};
    }
  }

  /** The owner and an activation token of the record's user can still be found. */
  predicate Resolvable(users: map<Id, User>, tokens: map<Id, ActivationToken>, userId: Id) {
    userId in users && exists k | k in tokens :: tokens[k].userId == userId
  }

  ghost predicate ResolvesMore(a: Tables, b: Tables) {
    forall u | Resolvable(a.users, a.tokens, u) :: Resolvable(b.users, b.tokens, u)
  }

  /** What other calls do to the tables while a tick waits: anything. */
  type Wait = Tables -> Tables

  /** Calls other than a tick leave the workers' own records alone, and no call removes a user or a token. */
  ghost predicate Harmless(wait: Wait) {
    forall t: Tables :: Grown(t.notices, wait(t).notices) && Grown(t.emails, wait(t).emails) && ResolvesMore(t, wait(t))
  }

  ghost predicate AllHarmless(waits: seq<Wait>) {
    forall i | 0 <= i < |waits| :: Harmless(waits[i])
  }

  /** What others do during dispatch i. */
  function During(waits: seq<Wait>, i: nat): Wait {
    if i < |waits| then waits[i] else t => t
  }

  /** Writes of calls other than a tick. */
  predicate Foreign(s: Statement) {
    && !s.SetNotice? && !s.RetryNotice? && !s.SetEmail? && !s.RetryEmail?
    && (s.InsertNotice? ==> Untried(s.notice)) && (s.InsertEmail? ==> Untried(s.email))
  }

  /** The tables after some statements; one the schema refuses changes nothing. */
  function Written(t: Tables, ss: seq<Statement>): Tables {
    if ss == [] then t
    else
      var before := Written(t, ss[..|ss| - 1]);
      var r := Exec(before, ss[|ss| - 1]);
      if r.Some? then r.value else before
  }

  lemma ForeignWrite(t: Tables, s: Statement)
    requires Foreign(s) && Exec(t, s).Some?
    ensures Grown(t.notices, Exec(t, s).value.notices) && Grown(t.emails, Exec(t, s).value.emails)
  {
  }

  lemma WriteResolvesMore(t: Tables, s: Statement)
    requires Exec(t, s).Some?
    ensures ResolvesMore(t, Exec(t, s).value)
  {
    var t' := Exec(t, s).value;
    UsersStayDistinct(t.users, s);
    TokensLast(t.users.Keys, t.tokens, s);
    forall u | Resolvable(t.users, t.tokens, u) ensures Resolvable(t'.users, t'.tokens, u) {
      var k :| k in t.tokens && t.tokens[k].userId == u;
      assert k in t'.tokens && t'.tokens[k].userId == u;
    }
  }

  lemma TokensLast(owners: set<Id>, tokens: map<Id, ActivationToken>, s: Statement)
    requires TokensAfter(owners, tokens, s).Some?
    ensures var tokens' := TokensAfter(owners, tokens, s).value;
            forall k | k in tokens :: k in tokens' && tokens'[k].userId == tokens[k].userId
  {
  }

  lemma {:induction false} WrittenGrows(t: Tables, ss: seq<Statement>)
    requires forall i | 0 <= i < |ss| :: Foreign(ss[i])
    ensures Grown(t.notices, Written(t, ss).notices) && Grown(t.emails, Written(t, ss).emails)
    ensures ResolvesMore(t, Written(t, ss))
  {
    if ss != [] {
      var before, last := Written(t, ss[..|ss| - 1]), ss[|ss| - 1];
      WrittenGrows(t, ss[..|ss| - 1]);
      if Exec(before, last).Some? {
        ForeignWrite(before, last);
        WriteResolvesMore(before, last);
      }
    }
  }

  /** Whatever other calls write, statement by statement, is harmless in this sense. */
  lemma StatementsAreHarmless(ss: seq<Statement>, wait: Wait)
    requires (forall i | 0 <= i < |ss| :: Foreign(ss[i])) && forall t :: wait(t) == Written(t, ss)
    ensures Harmless(wait)
  {
    forall t: Tables
      ensures Grown(t.notices, wait(t).notices) && Grown(t.emails, wait(t).emails) && ResolvesMore(t, wait(t))
    {
      WrittenGrows(t, ss);
    }
  }

  method OtherCalls(database: Database, wait: Wait)
    modifies database
    ensures database.tables == wait(old(database.tables))
  {
    database.tables := wait(database.tables);
  }

  // ------------------------------------------------------------------------------- a tick, record by record

  /** One record of a tick: what the tick read of it, what the provider answers, and what others do meanwhile. */
  datatype Job = Job(record: Id, userId: Id, retriesRead: nat, answer: Reply, wait: Wait)

  function JobOf<P>(records: map<Id, Record<P>>, r: Id, answer: Reply, wait: Wait): Job
    requires r in records
  {
    Job(r, records[r].userId, records[r].retries, answer, wait)
  }

  /** The jobs of a tick that found these records and this queue. */
  ghost predicate JobsOf<P>(records: map<Id, Record<P>>, q: seq<Id>, provider: Id -> Reply, waits: seq<Wait>,
                            jobs: seq<Job>)
  {
    && |jobs| == |q|
    && forall k | 0 <= k < |jobs| ::
         q[k] in records && jobs[k] == JobOf(records, q[k], provider(q[k]), During(waits, k))
  }

  /** The tables once the answer for notice r has been recorded. */
  function NoticeSettled(t: Tables, r: Id, retriesRead: nat, delivered: bool, maxRetries: int): Tables {
    if r !in t.notices then t
    else t.(notices := t.notices[r := Settled(t.notices[r], retriesRead, delivered, maxRetries)])
  }

  /** The same for an email, which may have had nothing to dispatch. */
  function EmailSettled(t: Tables, r: Id, retriesRead: nat, reply: Reply, maxRetries: int): Tables {
    if r !in t.emails then t
    else t.(emails := t.emails[r := if reply == Unresolved then t.emails[r].(delivery := Failed)
                                    else Settled(t.emails[r], retriesRead, reply == Delivered, maxRetries)])
  }

  /** One pass over the notice list: others write during the dispatch, then the answer is recorded. */
  function NoticePass(t: Tables, job: Job, maxRetries: int): Tables {
    NoticeSettled(job.wait(t), job.record, job.retriesRead, job.answer == Delivered, maxRetries)
  }

  function NoticePasses(t: Tables, jobs: seq<Job>, maxRetries: int): Tables {
    if jobs == [] then t
    else NoticePass(NoticePasses(t, jobs[..|jobs| - 1], maxRetries), jobs[|jobs| - 1], maxRetries)
  }

  /** How a record fares when it is reached: dispatched if its token and user can be found. */
  function ReplyTo(t: Tables, job: Job): Reply {
    if Resolvable(t.users, t.tokens, job.userId) then job.answer else Unresolved
  }

  /** One pass over the email list; a record that cannot be resolved goes to 'failed' without a dispatch. */
  function EmailPass(t: Tables, job: Job, maxRetries: int): Tables {
    var reply := ReplyTo(t, job);
    EmailSettled(if reply == Unresolved then t else job.wait(t), job.record, job.retriesRead, reply, maxRetries)
  }

  function EmailPasses(t: Tables, jobs: seq<Job>, maxRetries: int): Tables {
    if jobs == [] then t
    else EmailPass(EmailPasses(t, jobs[..|jobs| - 1], maxRetries), jobs[|jobs| - 1], maxRetries)
  }

  /** The reply record k gets: what matters is what the tables hold when it is reached. */
  function ReplyAt(t: Tables, jobs: seq<Job>, maxRetries: int, k: nat): Reply
    requires k < |jobs|
  {
    ReplyTo(EmailPasses(t, jobs[..k], maxRetries), jobs[k])
  }

  lemma NoticePassesNext(t: Tables, jobs: seq<Job>, job: Job, maxRetries: int)
    ensures NoticePasses(t, jobs + [job], maxRetries) == NoticePass(NoticePasses(t, jobs, maxRetries), job, maxRetries)
  {
    assert (jobs + [job])[..|jobs|] == jobs;
  }

  lemma EmailPassesNext(t: Tables, jobs: seq<Job>, job: Job, maxRetries: int)
    ensures EmailPasses(t, jobs + [job], maxRetries) == EmailPass(EmailPasses(t, jobs, maxRetries), job, maxRetries)
    ensures ReplyAt(t, jobs + [job], maxRetries, |jobs|) == ReplyTo(EmailPasses(t, jobs, maxRetries), job)
    ensures forall k | 0 <= k < |jobs| :: ReplyAt(t, jobs + [job], maxRetries, k) == ReplyAt(t, jobs, maxRetries, k)
  {
    assert (jobs + [job])[..|jobs|] == jobs;
    forall k | 0 <= k < |jobs| ensures ReplyAt(t, jobs + [job], maxRetries, k) == ReplyAt(t, jobs, maxRetries, k) {
      assert (jobs + [job])[..k] == jobs[..k];
    }
  }

  /** Where others do no harm a pass gives its record the outcome of its reply, and only adds others. */
  lemma HarmlessNoticePass(t: Tables, row: Notice, job: Job, maxRetries: int)
    requires Harmless(job.wait) && job.record in t.notices && t.notices[job.record] == row && row.delivery == Queued
    requires job.answer != Unresolved && job.retriesRead == row.retries
    ensures Grown(t.notices[job.record := Outcome(row, job.answer, maxRetries)], NoticePass(t, job, maxRetries).notices)
  {
    assert Grown(t.notices, job.wait(t).notices);
  }

  lemma HarmlessEmailPass(t: Tables, row: Email, job: Job, maxRetries: int)
    requires Harmless(job.wait) && job.record in t.emails && t.emails[job.record] == row && row.delivery == Queued
    requires job.answer != Unresolved && job.retriesRead == row.retries
    ensures Grown(t.emails[job.record := Outcome(row, ReplyTo(t, job), maxRetries)],
                  EmailPass(t, job, maxRetries).emails)
  {
    assert Grown(t.emails, job.wait(t).emails);
  }

  lemma EmailPassKeeps(t: Tables, job: Job, maxRetries: int)
    requires Harmless(job.wait)
    ensures ResolvesMore(t, EmailPass(t, job, maxRetries))
  {
    assert ResolvesMore(t, job.wait(t));
  }

  lemma ResolvesTransitive(a: Tables, b: Tables, c: Tables)
    requires ResolvesMore(a, b) && ResolvesMore(b, c)
    ensures ResolvesMore(a, c)
  {
  }

  /** What could be resolved when the tick started can be resolved at every pass. */
  lemma {:induction false} EmailPassesKeep(t: Tables, jobs: seq<Job>, maxRetries: int)
    requires forall k | 0 <= k < |jobs| :: Harmless(jobs[k].wait)
    ensures ResolvesMore(t, EmailPasses(t, jobs, maxRetries))
    decreases |jobs|
  {
    if jobs != [] {
      var n := |jobs| - 1;
      var before := EmailPasses(t, jobs[..n], maxRetries);
      EmailPassesKeep(t, jobs[..n], maxRetries);
      EmailPassKeeps(before, jobs[n], maxRetries);
      ResolvesTransitive(t, before, EmailPasses(t, jobs, maxRetries));
    }
  }

  // -------------------------------------------------------------------------------- a tick, as a whole

  /** The first n records of the queue have the outcome of their replies, the others are as they were. */
  ghost predicate DoneUpTo<P>(start: map<Id, Record<P>>, now: map<Id, Record<P>>, q: seq<Id>, replies: Id -> Reply,
                              maxRetries: int, n: nat)
    requires n <= |q|
  {
    && (forall r | r in start ::
          r in now && now[r] == if r in q[..n] then Outcome(start[r], replies(r), maxRetries) else start[r])
    && (forall r | r in now && r !in start :: Untried(now[r]))
  }

  lemma NextIsUntouched<P>(start: map<Id, Record<P>>, now: map<Id, Record<P>>, q: seq<Id>, replies: Id -> Reply,
                           maxRetries: int, n: nat)
    requires Chain(start, q) && n < |q| && DoneUpTo(start, now, q, replies, maxRetries, n)
    ensures q[n] in start && q[n] in now && now[q[n]] == start[q[n]] && start[q[n]].delivery == Queued
  {
    assert q[n] !in q[..n];
  }

  lemma DoneNext<P>(start: map<Id, Record<P>>, now: map<Id, Record<P>>, later: map<Id, Record<P>>, q: seq<Id>,
                    replies: Id -> Reply, maxRetries: int, n: nat)
    requires Chain(start, q) && n < |q| && DoneUpTo(start, now, q, replies, maxRetries, n)
    requires Grown(now[q[n] := Outcome(start[q[n]], replies(q[n]), maxRetries)], later)
    ensures DoneUpTo(start, later, q, replies, maxRetries, n + 1)
  {
    assert q[..n + 1] == q[..n] + [q[n]];
  }

  lemma AllDone<P>(start: map<Id, Record<P>>, now: map<Id, Record<P>>, q: seq<Id>, replies: Id -> Reply,
                   maxRetries: int)
    requires IsQueue(start, q) && DoneUpTo(start, now, q, replies, maxRetries, |q|)
    ensures TickOf(start, now, replies, maxRetries)
  {
    assert q[..|q|] == q;
  }

  lemma NoticePassDone(start: map<Id, Notice>, before: Tables, after: Tables, q: seq<Id>, job: Job,
                       provider: Id -> Reply, maxRetries: int, n: nat)
    requires Chain(start, q) && n < |q| && job == JobOf(start, q[n], provider(q[n]), job.wait)
    requires Harmless(job.wait) && job.answer != Unresolved && after == NoticePass(before, job, maxRetries)
    requires DoneUpTo(start, before.notices, q, provider, maxRetries, n)
    ensures DoneUpTo(start, after.notices, q, provider, maxRetries, n + 1)
  {
    NextIsUntouched(start, before.notices, q, provider, maxRetries, n);
    HarmlessNoticePass(before, start[q[n]], job, maxRetries);
    DoneNext(start, before.notices, after.notices, q, provider, maxRetries, n);
  }

  lemma {:induction false} NoticePassesDone(start: Tables, q: seq<Id>, provider: Id -> Reply, waits: seq<Wait>,
                                            jobs: seq<Job>, maxRetries: int, n: nat)
    requires Chain(start.notices, q) && JobsOf(start.notices, q, provider, waits, jobs) && n <= |q|
    requires AllHarmless(waits) && forall r :: provider(r) != Unresolved
    ensures DoneUpTo(start.notices, NoticePasses(start, jobs[..n], maxRetries).notices, q, provider, maxRetries, n)
  {
    if n > 0 {
      NoticePassesDone(start, q, provider, waits, jobs, maxRetries, n - 1);
      assert jobs[..n] == jobs[..n - 1] + [jobs[n - 1]];
      NoticePassesNext(start, jobs[..n - 1], jobs[n - 1], maxRetries);
      NoticePassDone(start.notices, NoticePasses(start, jobs[..n - 1], maxRetries),
                     NoticePasses(start, jobs[..n], maxRetries), q, jobs[n - 1], provider, maxRetries, n - 1);
    }
  }

  /** Where others do no harm, a notice tick gives each record the outcome of its own reply. */
  lemma NoticeTickDone(start: Tables, q: seq<Id>, provider: Id -> Reply, waits: seq<Wait>, jobs: seq<Job>,
                       maxRetries: int)
    requires IsQueue(start.notices, q) && JobsOf(start.notices, q, provider, waits, jobs)
    requires AllHarmless(waits) && forall r :: provider(r) != Unresolved
    ensures TickOf(start.notices, NoticePasses(start, jobs, maxRetries).notices, provider, maxRetries)
  {
    NoticePassesDone(start, q, provider, waits, jobs, maxRetries, |q|);
    assert jobs[..|q|] == jobs;
    AllDone(start.notices, NoticePasses(start, jobs, maxRetries).notices, q, provider, maxRetries);
  }

  /** The members of the queue so marked, in order. */
  function Picked(q: seq<Id>, marks: seq<bool>): seq<Id>
    requires |marks| <= |q|
  {
    if marks == [] then []
    else
      var n := |marks| - 1;
      Picked(q, marks[..n]) + (if marks[n] then [q[n]] else [])
  }

  lemma PickedNext(q: seq<Id>, marks: seq<bool>, mark: bool)
    requires |marks| < |q|
    ensures Picked(q, marks + [mark]) == if mark then Picked(q, marks) + [q[|marks|]] else Picked(q, marks)
  {
    assert (marks + [mark])[..|marks|] == marks;
  }

  lemma {:induction false} PickedSoFar(q: seq<Id>, marks: seq<bool>)
    requires |marks| <= |q|
    ensures forall r | r in Picked(q, marks) :: r in q[..|marks|]
    decreases |marks|
  {
    if marks != [] {
      var n := |marks| - 1;
      PickedSoFar(q, marks[..n]);
      assert q[..n + 1] == q[..n] + [q[n]];
    }
  }

  lemma NextFollows<P>(records: map<Id, Record<P>>, q: seq<Id>, list: seq<Id>, n: nat)
    requires IsQueue(records, q) && n < |q| && Chain(records, list) && forall r | r in list :: r in q[..n]
    ensures q[n] !in list && Chain(records, list + [q[n]])
  {
    forall i | 0 <= i < |list| ensures list[i] != q[n] && records[list[i]].dispatchAt <= records[q[n]].dispatchAt {
      assert list[i] in q[..n];
    }
  }

  /** What is picked from a queue is in its order, each once. */
  lemma {:induction false} PickedInOrder<P>(records: map<Id, Record<P>>, q: seq<Id>, marks: seq<bool>)
    requires IsQueue(records, q) && |marks| <= |q|
    ensures Chain(records, Picked(q, marks))
    decreases |marks|
  {
    if marks != [] {
      var n := |marks| - 1;
      PickedInOrder(records, q, marks[..n]);
      PickedSoFar(q, marks[..n]);
      NextFollows(records, q, Picked(q, marks[..n]), n);
    }
  }

  /** Picked are exactly those marked. */
  lemma {:induction false} PickedExactly(q: seq<Id>, marks: seq<bool>, k: nat)
    requires Distinct(q) && |marks| <= |q| && k < |q|
    ensures q[k] in Picked(q, marks) <==> k < |marks| && marks[k]
    decreases |marks|
  {
    if marks != [] {
      var n := |marks| - 1;
      PickedExactly(q, marks[..n], k);
    }
  }

  /** The replies of a whole tick, record by record. */
  ghost function RepliesOf(t: Tables, q: seq<Id>, jobs: seq<Job>, maxRetries: int): Id -> Reply
    requires |jobs| == |q|
  {
    (r: Id) => if r in q then var k: nat :| k < |q| && q[k] == r; ReplyAt(t, jobs, maxRetries, k) else Unresolved
  }

  ghost predicate RepliesFit(t: Tables, q: seq<Id>, jobs: seq<Job>, maxRetries: int, replies: Id -> Reply)
    requires |jobs| == |q|
  {
    forall k | 0 <= k < |q| :: replies(q[k]) == ReplyAt(t, jobs, maxRetries, k)
  }

  lemma RepliesOfFit(t: Tables, q: seq<Id>, jobs: seq<Job>, maxRetries: int)
    requires |jobs| == |q| && Distinct(q)
    ensures RepliesFit(t, q, jobs, maxRetries, RepliesOf(t, q, jobs, maxRetries))
  {
    forall k | 0 <= k < |q| ensures RepliesOf(t, q, jobs, maxRetries)(q[k]) == ReplyAt(t, jobs, maxRetries, k) {
      assert q[k] in q;
    }
  }

  lemma EmailPassDone(start: map<Id, Email>, before: Tables, after: Tables, q: seq<Id>, job: Job,
                      maxRetries: int, replies: Id -> Reply, n: nat)
    requires Chain(start, q) && n < |q| && job == JobOf(start, q[n], job.answer, job.wait)
    requires Harmless(job.wait) && job.answer != Unresolved && after == EmailPass(before, job, maxRetries)
    requires DoneUpTo(start, before.emails, q, replies, maxRetries, n) && replies(q[n]) == ReplyTo(before, job)
    ensures DoneUpTo(start, after.emails, q, replies, maxRetries, n + 1)
  {
    NextIsUntouched(start, before.emails, q, replies, maxRetries, n);
    HarmlessEmailPass(before, start[q[n]], job, maxRetries);
    DoneNext(start, before.emails, after.emails, q, replies, maxRetries, n);
  }

  lemma {:induction false} EmailPassesDone(start: Tables, q: seq<Id>, provider: Id -> Reply, waits: seq<Wait>,
                                           jobs: seq<Job>, maxRetries: int, replies: Id -> Reply, n: nat)
    requires Chain(start.emails, q) && JobsOf(start.emails, q, provider, waits, jobs) && n <= |q|
    requires AllHarmless(waits) && (forall r :: provider(r) != Unresolved)
    requires RepliesFit(start, q, jobs, maxRetries, replies)
    ensures DoneUpTo(start.emails, EmailPasses(start, jobs[..n], maxRetries).emails, q, replies, maxRetries, n)
  {
    if n > 0 {
      EmailPassesDone(start, q, provider, waits, jobs, maxRetries, replies, n - 1);
      assert replies(q[n - 1]) == ReplyAt(start, jobs, maxRetries, n - 1);
      assert jobs[..n] == jobs[..n - 1] + [jobs[n - 1]];
      EmailPassesNext(start, jobs[..n - 1], jobs[n - 1], maxRetries);
      EmailPassDone(start.emails, EmailPasses(start, jobs[..n - 1], maxRetries),
                    EmailPasses(start, jobs[..n], maxRetries), q, jobs[n - 1], maxRetries, replies, n - 1);
    }
  }

  /** The same for an email tick; the reply is what the record got when it was reached. */
  lemma EmailTickDone(start: Tables, q: seq<Id>, provider: Id -> Reply, waits: seq<Wait>, jobs: seq<Job>,
                      maxRetries: int)
    requires IsQueue(start.emails, q) && JobsOf(start.emails, q, provider, waits, jobs)
    requires AllHarmless(waits) && forall r :: provider(r) != Unresolved
    ensures TickOf(start.emails, EmailPasses(start, jobs, maxRetries).emails, RepliesOf(start, q, jobs, maxRetries),
                   maxRetries)
  {
    var replies := RepliesOf(start, q, jobs, maxRetries);
    RepliesOfFit(start, q, jobs, maxRetries);
    EmailPassesDone(start, q, provider, waits, jobs, maxRetries, replies, |q|);
    assert jobs[..|q|] == jobs;
    AllDone(start.emails, EmailPasses(start, jobs, maxRetries).emails, q, replies, maxRetries);
  }

  class AccountDeletionNotificationWorker {
    const database: Database
    const maxRetries: int

    constructor (database: Database, maxRetries: int)
      ensures this.database == database && this.maxRetries == maxRetries
    {
      this.database, this.maxRetries := database, maxRetries;
    }

    method HandleFailure(recordId: Id, currentRetryCount: nat)
      modifies database
      ensures database.tables == NoticeSettled(old(database.tables), recordId, currentRetryCount, false, maxRetries)
    {
      if currentRetryCount < maxRetries {
        database.CountNoticeRetry(recordId);
      } else {
        database.SetNoticeStatus(recordId, Failed);
      }
    }

    /** One pass of the loop: dispatch, during which other calls write, then record the answer. */
    method ProcessOne(job: Job)
      modifies database
      ensures database.tables == NoticePass(old(database.tables), job, maxRetries)
    {
      OtherCalls(database, job.wait);
      if job.answer == Delivered {
        database.SetNoticeStatus(job.record, Sent);
      } else {
        HandleFailure(job.record, job.retriesRead);
      }
    }

    /** `provider` is whatever the mail service answers; `waits[i]` is what other calls do during dispatch i. */
    method ProcessQueuedRecords(provider: Id -> Reply, waits: seq<Wait>)
      returns (dispatched: seq<Id>, ghost jobs: seq<Job>)
      modifies database
      ensures IsQueue(old(database.tables).notices, dispatched)
      ensures JobsOf(old(database.tables).notices, dispatched, provider, waits, jobs)
      ensures database.tables == NoticePasses(old(database.tables), jobs, maxRetries)
    {
      ghost var start := database.tables;
      var snapshot := database.tables.notices;
      dispatched := FindQueued(snapshot);
      jobs := [];
      var i := 0;
      while i < |dispatched|
        invariant 0 <= i <= |dispatched|
        invariant JobsOf(snapshot, dispatched[..i], provider, waits, jobs)
        invariant database.tables == NoticePasses(start, jobs, maxRetries)
      {
        var job := JobOf(snapshot, dispatched[i], provider(dispatched[i]), During(waits, i));
        ProcessOne(job);
        NoticePassesNext(start, jobs, job, maxRetries);
        jobs := jobs + [job];
        i := i + 1;
      }
      assert dispatched[..i] == dispatched;
    }
  }

  class OutboxWorker {
    const database: Database
    const maxRetries: int

    constructor (database: Database, maxRetries: int)
      ensures this.database == database && this.maxRetries == maxRetries
    {
      this.database, this.maxRetries := database, maxRetries;
    }

    method HandleFailure(recordId: Id, currentRetryCount: nat)
      modifies database
      ensures database.tables == EmailSettled(old(database.tables), recordId, currentRetryCount, Refused, maxRetries)
    {
      if currentRetryCount < maxRetries {
        database.CountEmailRetry(recordId);
      } else {
        database.SetEmailStatus(recordId, Failed);
      }
    }

    /** One pass of the loop: look up token and user, dispatch if both are there, record the result. */
    method ProcessOne(job: Job) returns (reply: Reply)
      requires job.answer != Unresolved
      modifies database
      ensures database.tables == EmailPass(old(database.tables), job, maxRetries)
      ensures reply == ReplyTo(old(database.tables), job)
    {
      if !Resolvable(database.tables.users, database.tables.tokens, job.userId) {
        database.SetEmailStatus(job.record, Failed);
        return Unresolved;
      }
      OtherCalls(database, job.wait);
      reply := job.answer;
      if reply == Delivered {
        database.SetEmailStatus(job.record, Sent);
      } else {
        HandleFailure(job.record, job.retriesRead);
      }
    }

    /**
     * As above, with the extra branch: a record whose token or user cannot be found when it is reached goes to 'failed'
     * with no dispatch.
     */
    method ProcessQueuedRecords(provider: Id -> Reply, waits: seq<Wait>)
      returns (records: seq<Id>, dispatched: seq<Id>, ghost jobs: seq<Job>)
      requires forall r :: provider(r) != Unresolved
      modifies database
      ensures IsQueue(old(database.tables).emails, records)
      ensures JobsOf(old(database.tables).emails, records, provider, waits, jobs)
      ensures database.tables == EmailPasses(old(database.tables), jobs, maxRetries)
      ensures Chain(old(database.tables).emails, dispatched)
      ensures forall k | 0 <= k < |records| ::
                records[k] in dispatched <==> ReplyAt(old(database.tables), jobs, maxRetries, k) != Unresolved
    {
      ghost var start := database.tables;
      var snapshot := database.tables.emails;
      records := FindQueued(snapshot);
      dispatched, jobs := [], [];
      ghost var found: seq<bool> := [];
      var i := 0;
      while i < |records|
        invariant 0 <= i <= |records|
        invariant JobsOf(snapshot, records[..i], provider, waits, jobs)
        invariant database.tables == EmailPasses(start, jobs, maxRetries)
        invariant |found| == i && dispatched == Picked(records, found)
        invariant forall k | 0 <= k < i :: found[k] <==> ReplyAt(start, jobs, maxRetries, k) != Unresolved
      {
        var job := JobOf(snapshot, records[i], provider(records[i]), During(waits, i));
        var reply := ProcessOne(job);
        if reply != Unresolved {
          dispatched := dispatched + [records[i]];
        }
        PickedNext(records, found, reply != Unresolved);
        EmailPassesNext(start, jobs, job, maxRetries);
        found, jobs := found + [reply != Unresolved], jobs + [job];
        i := i + 1;
      }
      assert records[..i] == records;
      PickedInOrder(snapshot, records, found);
      forall k | 0 <= k < |records| ensures records[k] in dispatched <==> found[k] {
        PickedExactly(records, found, k);
      }
    }
  }
}
