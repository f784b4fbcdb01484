/**
 * Deletion notices over whole runs of the service, in which the worker's ticks interleave with everything else and
 * with each other: the timer starts a tick whether or not an earlier one has ended.
 */
module Notices {
  import opened Prelude
  import opened Schema
  import opened Outbox
  import opened Retries
  import opened System
  import opened Invariants
  import opened Steps
  import opened Frames
  import opened Lifecycle

  /** Call c is a tick of the notice worker that has not ended. */
  predicate Ticking(s: State, c: nat) {
    c in s.calls && s.calls[c].NoticeCall?
  }

  function UnderWay(s: State): set<nat> {
    set c | c in s.calls && Ticking(s, c)
  }

  /** The most ticks that were ever under way at the same time. */
  ghost function MostUnderWay(cfg: Config, start: Time, run: seq<Action>): nat {
    if run == [] then 0
    else Max(MostUnderWay(cfg, start, run[..|run| - 1]), |UnderWay(At(cfg, start, run))|)
  }

  /** This action ends the dispatch of the notice at the head of a tick's list. */
  predicate Dispatching(s: State, a: Action, n: Id) {
    a.NoticeSettle? && Ticking(s, a.call) && s.calls[a.call].queue != [] && s.calls[a.call].queue[0] == n
  }

  /** How often the run dispatched notice n. */
  ghost function TimesDispatched(cfg: Config, start: Time, run: seq<Action>, n: Id): nat {
    if run == [] then 0
    else
      var s := At(cfg, start, run[..|run| - 1]);
      TimesDispatched(cfg, start, run[..|run| - 1], n) + (if Dispatching(s, run[|run| - 1], n) then 1 else 0)
  }

  /** Tick c still has n on its list. */
  predicate Lists(s: State, c: nat, n: Id) {
    Ticking(s, c) && n in s.calls[c].queue
  }

  function Listing(s: State, n: Id): set<nat> {
    set c | c in s.calls && Lists(s, c, n)
  }

  /** Of those, the ticks that will count another retry if the dispatch fails, by the count they read at their start. */
  function Stale(cfg: Config, s: State, n: Id): set<nat> {
    set c | c in Listing(s, n) && n in s.calls[c].retriesRead && s.calls[c].retriesRead[n] < Cap(cfg.maxRetries)
  }

  // ------------------------------------------------------------------------- retries and dispatches agree

  /** A notice with k dispatches so far, on `listing` lists, `stale` of them by a count below the cap. */
  predicate Counted(row: Notice, k: nat, listing: nat, stale: nat, cap: nat, m: nat)
    requires m >= 1
  {
    if row.delivery == Queued then
      && k == row.retries && row.retries <= Stretch(cap + 1, m)
      && (row.retries >= cap ==> row.retries - cap + stale <= m - 1)
    else
      k + listing <= PerLock(cap + 1, m) && row.retries + stale <= Stretch(cap + 1, m)
  }

  /** One dispatch by a tick that read `read`: its list entry is gone, and the counts still agree. */
  lemma DispatchCounts(row: Notice, read: nat, delivered: bool, maxRetries: int, k: nat, listing: nat, stale: nat,
                       m: nat)
    requires m >= 1 && Counted(row, k, listing, stale, Cap(maxRetries), m) && read <= row.retries
    requires 1 <= listing <= m && stale <= m && (Cap(maxRetries) == 0 ==> stale == 0)
    requires read < Cap(maxRetries) ==> stale >= 1
    ensures Counted(Settled(row, read, delivered, maxRetries), k + 1, listing - 1,
                    if read < Cap(maxRetries) then stale - 1 else stale, Cap(maxRetries), m)
  {
  }

  ghost predicate Once(q: seq<Id>, n: Id) {
    forall i, j | 0 <= i < j < |q| :: !(q[i] == n && q[j] == n)
  }

  /** A tick lists a stored notice, once, and read a retry count it has had. */
  ghost predicate EntrySound(notices: map<Id, Notice>, q: seq<Id>, read: map<Id, nat>, n: Id) {
    n in notices && Once(q, n) && n in read && read[n] <= notices[n].retries
  }

  ghost predicate ListsSound(s: State, n: Id) {
    forall c | Lists(s, c, n) :: EntrySound(s.t.notices, s.calls[c].queue, s.calls[c].retriesRead, n)
  }

  ghost predicate NoticeCounted(cfg: Config, s: State, n: Id, k: nat, m: nat)
    requires m >= 1
  {
    && ListsSound(s, n)
    && (if n in s.t.notices
        then Counted(s.t.notices[n], k, |Listing(s, n)|, |Stale(cfg, s, n)|, Cap(cfg.maxRetries), m) else k == 0)
  }

  // ------------------------------------------------------------------------------------- one step

  lemma OthersKeepNotices(cfg: Config, s: State, a: Action)
    requires !a.ConfirmDeletion? && !a.NoticeSettle?
    ensures Step(cfg, s, a).t.notices == s.t.notices
  {
    if IsQuiet(a) {
      QuietStep(cfg, s, a);
    } else if Parks(a) {
      ParksFrame(cfg, s, a);
    } else if Issues(a) {
      IssueFrame(cfg, s, a);
    } else if a.call in s.calls && s.calls[a.call].LoginCall? {
      LoginFrame(cfg, s, a.call, a.sid, a.token);
    }
  }

  /** Only the worker changes notices; new ones arrive untried. */
  lemma NoticesOutlastStep(cfg: Config, s: State, a: Action)
    requires !a.NoticeSettle?
    ensures Grown(s.t.notices, Step(cfg, s, a).t.notices)
  {
    if a.ConfirmDeletion? {
      DeletionFrame(cfg, s, a.u, a.code, a.noticeId, a.fault);
    } else {
      OthersKeepNotices(cfg, s, a);
    }
  }

  lemma TickStarts(cfg: Config, s: State, c: nat, q: seq<Id>)
    requires Idle(s, c) && IsQueue(s.t.notices, q)
    ensures Step(cfg, s, NoticeTick(c, q))
         == Park(s, c, NoticeCall(q, map r | r in s.t.notices :: s.t.notices[r].retries))
  {
  }

  lemma HeadSettles(cfg: Config, s: State, c: nat, q: seq<Id>, read: map<Id, nat>, delivered: bool)
    requires Ticking(s, c) && s.calls[c] == NoticeCall(q, read) && q != [] && q[0] in s.t.notices && q[0] in read
    ensures var s' := Step(cfg, s, NoticeSettle(c, delivered));
            && s'.t.notices == s.t.notices[q[0] := Settled(s.t.notices[q[0]], read[q[0]], delivered, cfg.maxRetries)]
            && s'.calls == s.calls[c := NoticeCall(q[1..], read)]
  {
  }

  lemma ListEnds(cfg: Config, s: State, c: nat, delivered: bool)
    requires Ticking(s, c) && s.calls[c].queue == []
    ensures var s' := Step(cfg, s, NoticeSettle(c, delivered)); s'.t == s.t && s'.calls == s.calls - {c}
  {
  }

  /** The head of a list that names a notice that is gone is passed over. */
  lemma HeadPassed(cfg: Config, s: State, c: nat, q: seq<Id>, read: map<Id, nat>, delivered: bool)
    requires Ticking(s, c) && s.calls[c] == NoticeCall(q, read) && q != [] && (q[0] !in s.t.notices || q[0] !in read)
    ensures var s' := Step(cfg, s, NoticeSettle(c, delivered));
            s'.t == s.t && s'.calls == s.calls[c := NoticeCall(q[1..], read)]
  {
  }

  /** What a settle of another notice, or the end of a list, leaves alone: n, and the ticks that list it. */
  ghost predicate NoticeKept(s: State, s': State, n: Id) {
    && (n in s.t.notices ==> n in s'.t.notices && s'.t.notices[n] == s.t.notices[n])
    && (n in s'.t.notices ==> n in s.t.notices)
    && (forall c | Lists(s', c, n) ::
          Lists(s, c, n) && s'.calls[c].retriesRead == s.calls[c].retriesRead
          && (Once(s.calls[c].queue, n) ==> Once(s'.calls[c].queue, n)))
  }

  lemma TailOnce(q: seq<Id>, n: Id)
    requires q != [] && Once(q, n)
    ensures Once(q[1..], n)
  {
    var tail := q[1..];
    forall i, j | 0 <= i < j < |tail| ensures !(tail[i] == n && tail[j] == n) {
      assert tail[i] == q[i + 1] && tail[j] == q[j + 1];
    }
  }

  lemma OtherSettleKeeps(cfg: Config, s: State, c: nat, delivered: bool, n: Id)
    requires Ticking(s, c) && !Dispatching(s, NoticeSettle(c, delivered), n)
    ensures NoticeKept(s, Step(cfg, s, NoticeSettle(c, delivered)), n)
  {
    var q, read := s.calls[c].queue, s.calls[c].retriesRead;
    if q == [] {
      ListEnds(cfg, s, c, delivered);
    } else {
      if Once(q, n) {
        TailOnce(q, n);
      }
      if q[0] in s.t.notices && q[0] in read {
        HeadSettles(cfg, s, c, q, read, delivered);
      } else {
        HeadPassed(cfg, s, c, q, read, delivered);
      }
    }
  }

  lemma KeptStaysCounted(cfg: Config, s: State, s': State, n: Id, k: nat, m: nat)
    requires m >= 1 && NoticeCounted(cfg, s, n, k, m) && NoticeKept(s, s', n)
    ensures NoticeCounted(cfg, s', n, k, m)
  {
    SubsetIsNoLarger(Listing(s', n), Listing(s, n));
    SubsetIsNoLarger(Stale(cfg, s', n), Stale(cfg, s, n));
  }

  /** The dispatch takes n off one list. */
  lemma DispatchLeaves(cfg: Config, s: State, c: nat, delivered: bool, n: Id)
    requires Dispatching(s, NoticeSettle(c, delivered), n) && ListsSound(s, n)
    ensures var s', read := Step(cfg, s, NoticeSettle(c, delivered)), s.calls[c].retriesRead;
            && n in s.t.notices && n in read && read[n] <= s.t.notices[n].retries && c in Listing(s, n)
            && s'.t.notices == s.t.notices[n := Settled(s.t.notices[n], read[n], delivered, cfg.maxRetries)]
            && s'.calls == s.calls[c := NoticeCall(s.calls[c].queue[1..], read)]
            && n !in s'.calls[c].queue
  {
    var q, read := s.calls[c].queue, s.calls[c].retriesRead;
    assert Lists(s, c, n);
    HeadSettles(cfg, s, c, q, read, delivered);
    forall i | 0 <= i < |q[1..]| ensures q[1..][i] != n {
      assert q[1..][i] == q[i + 1];
    }
  }

  lemma ListsShrink(cfg: Config, s: State, s': State, c: nat, n: Id)
    requires c in Listing(s, n) && ListsSound(s, n) && Ticking(s', c) && n !in s'.calls[c].queue
    requires s'.calls == s.calls[c := s'.calls[c]]
    ensures Listing(s', n) == Listing(s, n) - {c} && |Listing(s', n)| == |Listing(s, n)| - 1
    ensures Stale(cfg, s', n) == Stale(cfg, s, n) - {c}
    ensures var low := s.calls[c].retriesRead[n] < Cap(cfg.maxRetries);
            (low <==> c in Stale(cfg, s, n)) && |Stale(cfg, s', n)| == |Stale(cfg, s, n)| - (if low then 1 else 0)
  {
    assert Lists(s, c, n);
    assert Listing(s', n) == Listing(s, n) - {c};
    assert Stale(cfg, s', n) == Stale(cfg, s, n) - {c};
  }

  lemma FewListing(cfg: Config, s: State, n: Id)
    ensures |Listing(s, n)| <= |UnderWay(s)| && |Stale(cfg, s, n)| <= |UnderWay(s)|
    ensures Cap(cfg.maxRetries) == 0 ==> |Stale(cfg, s, n)| == 0
  {
    SubsetIsNoLarger(Listing(s, n), UnderWay(s));
    SubsetIsNoLarger(Stale(cfg, s, n), UnderWay(s));
    if Cap(cfg.maxRetries) == 0 {
      assert Stale(cfg, s, n) == {};
    }
  }

  lemma DispatchStaysCounted(cfg: Config, s: State, c: nat, delivered: bool, n: Id, k: nat, m: nat)
    requires m >= 1 && NoticeCounted(cfg, s, n, k, m) && |UnderWay(s)| <= m
    requires Dispatching(s, NoticeSettle(c, delivered), n)
    ensures NoticeCounted(cfg, Step(cfg, s, NoticeSettle(c, delivered)), n, k + 1, m)
  {
    var s', read := Step(cfg, s, NoticeSettle(c, delivered)), s.calls[c].retriesRead;
    DispatchLeaves(cfg, s, c, delivered, n);
    ListsShrink(cfg, s, s', c, n);
    FewListing(cfg, s, n);
    DispatchCounts(s.t.notices[n], read[n], delivered, cfg.maxRetries, k, |Listing(s, n)|, |Stale(cfg, s, n)|, m);
    forall e | Lists(s', e, n) ensures EntrySound(s'.t.notices, s'.calls[e].queue, s'.calls[e].retriesRead, n) {
      assert e != c && Lists(s, e, n);
    }
  }

  lemma NewEntry(notices: map<Id, Notice>, q: seq<Id>, n: Id)
    requires IsQueue(notices, q)
    ensures n in q <==> n in notices && notices[n].delivery == Queued
    ensures Once(q, n)
  {
  }

  /** A tick that starts lists n if n is queued, with the retries it has now. */
  lemma StartStaysCounted(cfg: Config, s: State, c: nat, q: seq<Id>, n: Id, k: nat, m: nat)
    requires m >= 1 && NoticeCounted(cfg, s, n, k, m) && Idle(s, c) && IsQueue(s.t.notices, q)
    ensures NoticeCounted(cfg, Step(cfg, s, NoticeTick(c, q)), n, k, m)
  {
    var s' := Step(cfg, s, NoticeTick(c, q));
    TickStarts(cfg, s, c, q);
    NewEntry(s.t.notices, q, n);
    forall e | Lists(s', e, n) ensures EntrySound(s'.t.notices, s'.calls[e].queue, s'.calls[e].retriesRead, n) {
      assert e == c || Lists(s, e, n);
    }
    if n in s.t.notices && s.t.notices[n].delivery != Queued {
      assert Listing(s', n) == Listing(s, n) && Stale(cfg, s', n) == Stale(cfg, s, n);
    } else if n in s.t.notices && s.t.notices[n].retries >= Cap(cfg.maxRetries) {
      assert Stale(cfg, s', n) == Stale(cfg, s, n);
    }
  }

  lemma NoListEnters(cfg: Config, s: State, a: Action, s': State, n: Id)
    requires EntersOrStays(cfg, s, a, s') && !a.NoticeSettle? && !a.NoticeTick?
    ensures forall c | Lists(s', c, n) :: Lists(s, c, n) && s'.calls[c] == s.calls[c]
  {
  }

  lemma OtherStepsKeepLists(cfg: Config, s: State, a: Action, n: Id)
    requires !a.NoticeSettle? && !a.NoticeTick?
    ensures forall c | Lists(Step(cfg, s, a), c, n) :: Lists(s, c, n) && Step(cfg, s, a).calls[c] == s.calls[c]
  {
    CallsEnter(cfg, s, a);
    NoListEnters(cfg, s, a, Step(cfg, s, a), n);
  }

  lemma GrownStaysCounted(cfg: Config, s: State, s': State, n: Id, k: nat, m: nat)
    requires m >= 1 && NoticeCounted(cfg, s, n, k, m) && Grown(s.t.notices, s'.t.notices)
    requires forall c | Lists(s', c, n) :: Lists(s, c, n) && s'.calls[c] == s.calls[c]
    ensures NoticeCounted(cfg, s', n, k, m)
  {
    if n in s.t.notices {
      SubsetIsNoLarger(Listing(s', n), Listing(s, n));
      SubsetIsNoLarger(Stale(cfg, s', n), Stale(cfg, s, n));
    } else {
      assert Listing(s', n) == {} && Stale(cfg, s', n) == {};
    }
  }

  lemma SettleStaysCounted(cfg: Config, s: State, c: nat, delivered: bool, n: Id, k: nat, m: nat)
    requires m >= 1 && NoticeCounted(cfg, s, n, k, m) && |UnderWay(s)| <= m
    ensures var a := NoticeSettle(c, delivered);
            NoticeCounted(cfg, Step(cfg, s, a), n, k + (if Dispatching(s, a, n) then 1 else 0), m)
  {
    if Dispatching(s, NoticeSettle(c, delivered), n) {
      DispatchStaysCounted(cfg, s, c, delivered, n, k, m);
    } else if Ticking(s, c) {
      OtherSettleKeeps(cfg, s, c, delivered, n);
      KeptStaysCounted(cfg, s, Step(cfg, s, NoticeSettle(c, delivered)), n, k, m);
    }
  }

  lemma OthersStayCounted(cfg: Config, s: State, a: Action, n: Id, k: nat, m: nat)
    requires m >= 1 && NoticeCounted(cfg, s, n, k, m) && !a.NoticeSettle? && !a.NoticeTick?
    ensures NoticeCounted(cfg, Step(cfg, s, a), n, k, m)
  {
    NoticesOutlastStep(cfg, s, a);
    OtherStepsKeepLists(cfg, s, a, n);
    GrownStaysCounted(cfg, s, Step(cfg, s, a), n, k, m);
  }

  /** Any step, with up to m ticks under way. */
  lemma StepStaysCounted(cfg: Config, s: State, a: Action, n: Id, k: nat, m: nat)
    requires m >= 1 && NoticeCounted(cfg, s, n, k, m) && |UnderWay(s)| <= m
    ensures NoticeCounted(cfg, Step(cfg, s, a), n, k + (if Dispatching(s, a, n) then 1 else 0), m)
  {
    if a.NoticeSettle? {
      SettleStaysCounted(cfg, s, a.call, a.delivered, n, k, m);
    } else if a.NoticeTick? {
      if Idle(s, a.call) && IsQueue(s.t.notices, a.queue) {
        StartStaysCounted(cfg, s, a.call, a.queue, n, k, m);
      }
    } else {
      OthersStayCounted(cfg, s, a, n, k, m);
    }
  }

  // ------------------------------------------------------------------------------------- whole runs

  lemma WayBounded(cfg: Config, start: Time, run: seq<Action>)
    ensures |UnderWay(At(cfg, start, run))| <= MostUnderWay(cfg, start, run)
  {
    if run == [] {
      assert UnderWay(Initial(start)) == {};
    }
  }

  /** On every run: retries, dispatches and the lists of the ticks under way agree. */
  lemma {:induction false} CountedInRuns(cfg: Config, start: Time, run: seq<Action>, n: Id, m: nat)
    requires m >= 1 && MostUnderWay(cfg, start, run) <= m
    ensures NoticeCounted(cfg, At(cfg, start, run), n, TimesDispatched(cfg, start, run, n), m)
  {
    if run != [] {
      var last := |run| - 1;
      WayBounded(cfg, start, run[..last]);
      CountedInRuns(cfg, start, run[..last], n, m);
      StepStaysCounted(cfg, At(cfg, start, run[..last]), run[last], n, TimesDispatched(cfg, start, run[..last], n), m);
    }
  }

  /**
   * The dispatch bound, for every run: where at most m ticks are ever under way at once, a notice is dispatched at most
   * PerLock(cap + 1, m) times and its retry count stays within Stretch(cap + 1, m), and once it has been dispatched
   * more often than that it is settled. Where ticks do not overlap these numbers are cap + 1 and cap.
   */
  lemma NoticeDispatchBound(cfg: Config, start: Time, run: seq<Action>, n: Id)
    ensures var m, times := Max(1, MostUnderWay(cfg, start, run)), TimesDispatched(cfg, start, run, n);
            var notices := At(cfg, start, run).t.notices;
            && times <= PerLock(Cap(cfg.maxRetries) + 1, m)
            && (n !in notices ==> times == 0)
            && (n in notices ==> notices[n].retries <= Stretch(Cap(cfg.maxRetries) + 1, m))
            && (n in notices && times > Stretch(Cap(cfg.maxRetries) + 1, m) ==> notices[n].delivery != Queued)
  {
    CountedInRuns(cfg, start, run, n, Max(1, MostUnderWay(cfg, start, run)));
  }

  // --------------------------------------------------------------------------- when a settled notice is final

  /** Nothing that follows changes the notice. */
  ghost predicate Unchanged(cfg: Config, start: Time, run: seq<Action>, more: seq<Action>, n: Id)
    requires n in At(cfg, start, run).t.notices
  {
    var notices := At(cfg, start, run + more).t.notices;
    n in notices && notices[n] == At(cfg, start, run).t.notices[n]
  }

  ghost predicate SettledAndUnlisted(s: State, n: Id) {
    n in s.t.notices && s.t.notices[n].delivery != Queued && forall c :: !Lists(s, c, n)
  }

  lemma StartListsNoSettled(cfg: Config, s: State, c: nat, q: seq<Id>, n: Id)
    requires SettledAndUnlisted(s, n) && Idle(s, c) && IsQueue(s.t.notices, q)
    ensures SettledAndUnlisted(Step(cfg, s, NoticeTick(c, q)), n)
  {
    TickStarts(cfg, s, c, q);
    NewEntry(s.t.notices, q, n);
    forall e ensures !Lists(Step(cfg, s, NoticeTick(c, q)), e, n) {
      assert !Lists(s, e, n);
    }
  }

  /** No tick lists a settled notice afresh, and only one that lists it can change it. */
  lemma UnlistedStep(cfg: Config, s: State, a: Action, n: Id)
    requires SettledAndUnlisted(s, n)
    ensures SettledAndUnlisted(Step(cfg, s, a), n) && Step(cfg, s, a).t.notices[n] == s.t.notices[n]
  {
    if a.NoticeSettle? {
      if Ticking(s, a.call) {
        assert !Lists(s, a.call, n);
        OtherSettleKeeps(cfg, s, a.call, a.delivered, n);
      }
    } else if a.NoticeTick? {
      if Idle(s, a.call) && IsQueue(s.t.notices, a.queue) {
        TickStarts(cfg, s, a.call, a.queue);
        StartListsNoSettled(cfg, s, a.call, a.queue, n);
      }
    } else {
      NoticesOutlastStep(cfg, s, a);
      OtherStepsKeepLists(cfg, s, a, n);
    }
  }

  lemma {:induction false} UnlistedIsFinal(cfg: Config, s: State, more: seq<Action>, n: Id)
    requires SettledAndUnlisted(s, n)
    ensures SettledAndUnlisted(After(cfg, s, more), n) && After(cfg, s, more).t.notices[n] == s.t.notices[n]
  {
    if more != [] {
      var last := |more| - 1;
      UnlistedIsFinal(cfg, s, more[..last], n);
      UnlistedStep(cfg, After(cfg, s, more[..last]), more[last], n);
    }
  }

  /** Tick c goes on to n, delivering what comes first, and gets the answer `delivered` for n. */
  function UpTo(q: seq<Id>, c: nat, n: Id, delivered: bool): seq<Action>
    requires n in q
  {
    if q[0] == n then [NoticeSettle(c, delivered)] else [NoticeSettle(c, true)] + UpTo(q[1..], c, n, delivered)
  }

  lemma ListedEntries(cfg: Config, s: State, c: nat)
    requires Inv(cfg, s) && Ticking(s, c)
    ensures forall i | 0 <= i < |s.calls[c].queue| ::
              s.calls[c].queue[i] in s.t.notices && s.calls[c].queue[i] in s.calls[c].retriesRead
  {
    assert Holds(cfg, s, CallsFact);
    assert CallHolds(s.t, s.calls[c]);
  }

  lemma OtherAnswerChanges(row: Notice, read: nat, maxRetries: int)
    requires row.delivery != Queued
    ensures Settled(row, read, row.delivery == Failed, maxRetries) != row
  {
  }

  /** A tick that still lists a settled notice can change it, by getting the other answer. */
  lemma {:induction false} ListedCanChange(cfg: Config, s: State, c: nat, n: Id)
    requires Inv(cfg, s) && Lists(s, c, n) && n in s.t.notices && s.t.notices[n].delivery != Queued
    ensures var row := s.t.notices[n];
            var s' := After(cfg, s, UpTo(s.calls[c].queue, c, n, row.delivery == Failed));
            n in s'.t.notices && s'.t.notices[n] != row
    decreases |s.calls[c].queue|
  {
    var q, read := s.calls[c].queue, s.calls[c].retriesRead;
    var answer := s.t.notices[n].delivery == Failed;
    ListedEntries(cfg, s, c);
    if q[0] == n {
      OneAction(cfg, s, NoticeSettle(c, answer));
      HeadSettles(cfg, s, c, q, read, answer);
      OtherAnswerChanges(s.t.notices[n], read[n], cfg.maxRetries);
    } else {
      var a := NoticeSettle(c, true);
      OneAction(cfg, s, a);
      HeadSettles(cfg, s, c, q, read, true);
      StepGood(cfg, s, a);
      AfterConcat(cfg, s, [a], UpTo(q[1..], c, n, answer));
      ListedCanChange(cfg, Step(cfg, s, a), c, n);
    }
  }

  lemma OneAction(cfg: Config, s: State, a: Action)
    ensures After(cfg, s, [a]) == Step(cfg, s, a)
  {
    assert [a][..0] == [];
  }

  /** Exactly when a notice that was sent or given up never changes again: when no tick under way still lists it. */
  lemma SettledIsFinalExactly(cfg: Config, start: Time, run: seq<Action>, n: Id)
    requires var notices := At(cfg, start, run).t.notices; n in notices && notices[n].delivery != Queued
    ensures (forall more: seq<Action> :: Unchanged(cfg, start, run, more, n))
       <==> (forall c :: !Lists(At(cfg, start, run), c, n))
  {
    var s := At(cfg, start, run);
    if SettledAndUnlisted(s, n) {
      forall more: seq<Action> ensures Unchanged(cfg, start, run, more, n) {
        AfterConcat(cfg, Initial(start), run, more);
        UnlistedIsFinal(cfg, s, more, n);
      }
    } else {
      var c :| Lists(s, c, n);
      var more := UpTo(s.calls[c].queue, c, n, s.t.notices[n].delivery == Failed);
      Reachable(cfg, start, run);
      ListedCanChange(cfg, s, c, n);
      AfterConcat(cfg, Initial(start), run, more);
      assert !Unchanged(cfg, start, run, more, n);
    }
  }

  /** With a single tick under way, what is on its list is still queued. */
  ghost predicate ListedAreQueued(s: State, n: Id) {
    forall c | Lists(s, c, n) :: n in s.t.notices && s.t.notices[n].delivery == Queued
  }

  lemma OnlyOne(s: set<nat>, c: nat, e: nat)
    requires |s| <= 1 && c in s && e in s
    ensures c == e
  {
    assert |s - {c}| == 0;
  }

  lemma SettleKeepsListedQueued(cfg: Config, s: State, c: nat, delivered: bool, n: Id)
    requires ListsSound(s, n) && ListedAreQueued(s, n) && |UnderWay(s)| <= 1 && Ticking(s, c)
    ensures ListedAreQueued(Step(cfg, s, NoticeSettle(c, delivered)), n)
  {
    var s' := Step(cfg, s, NoticeSettle(c, delivered));
    if Dispatching(s, NoticeSettle(c, delivered), n) {
      DispatchLeaves(cfg, s, c, delivered, n);
      forall e | Lists(s', e, n) ensures false {
        assert e in UnderWay(s) && c in UnderWay(s);
        OnlyOne(UnderWay(s), e, c);
      }
    } else {
      OtherSettleKeeps(cfg, s, c, delivered, n);
    }
  }

  lemma StartKeepsListedQueued(cfg: Config, s: State, c: nat, q: seq<Id>, n: Id)
    requires ListedAreQueued(s, n) && Idle(s, c) && IsQueue(s.t.notices, q)
    ensures ListedAreQueued(Step(cfg, s, NoticeTick(c, q)), n)
  {
    var s' := Step(cfg, s, NoticeTick(c, q));
    TickStarts(cfg, s, c, q);
    NewEntry(s.t.notices, q, n);
    forall e | Lists(s', e, n) ensures n in s.t.notices && s.t.notices[n].delivery == Queued {
      assert e == c || Lists(s, e, n);
    }
  }

  lemma StepKeepsListedQueued(cfg: Config, s: State, a: Action, n: Id)
    requires ListsSound(s, n) && ListedAreQueued(s, n) && |UnderWay(s)| <= 1
    ensures ListedAreQueued(Step(cfg, s, a), n)
  {
    if a.NoticeSettle? {
      if Ticking(s, a.call) {
        SettleKeepsListedQueued(cfg, s, a.call, a.delivered, n);
      }
    } else if a.NoticeTick? {
      if Idle(s, a.call) && IsQueue(s.t.notices, a.queue) {
        StartKeepsListedQueued(cfg, s, a.call, a.queue, n);
      }
    } else {
      NoticesOutlastStep(cfg, s, a);
      OtherStepsKeepLists(cfg, s, a, n);
    }
  }

  lemma {:induction false} ListedQueuedInRuns(cfg: Config, start: Time, run: seq<Action>, n: Id)
    requires MostUnderWay(cfg, start, run) <= 1
    ensures ListedAreQueued(At(cfg, start, run), n)
  {
    if run != [] {
      var last := |run| - 1;
      ListedQueuedInRuns(cfg, start, run[..last], n);
      CountedInRuns(cfg, start, run[..last], n, 1);
      WayBounded(cfg, start, run[..last]);
      StepKeepsListedQueued(cfg, At(cfg, start, run[..last]), run[last], n);
    }
  }

  /** So where ticks have not overlapped, every settled notice is final, whatever overlaps later. */
  lemma SettledNoticesAreFinal(cfg: Config, start: Time, run: seq<Action>, more: seq<Action>, n: Id)
    requires MostUnderWay(cfg, start, run) <= 1
    requires var notices := At(cfg, start, run).t.notices; n in notices && notices[n].delivery != Queued
    ensures Unchanged(cfg, start, run, more, n)
  {
    ListedQueuedInRuns(cfg, start, run, n);
    SettledIsFinalExactly(cfg, start, run, n);
  }

  /**
   * Nothing in the worker keeps ticks apart. From any reached state with a queued notice, two ticks that read it and
   * then get different answers first mark it sent and then change it again, to failed if its retries are used up.
   */
  lemma OverlappingTicksUnsettle(cfg: Config, start: Time, run: seq<Action>, c: nat, e: nat, q: seq<Id>)
    requires var s := At(cfg, start, run);
             c != e && Idle(s, c) && Idle(s, e) && IsQueue(s.t.notices, q) && q != []
    ensures var sent := run + [NoticeTick(c, q)] + [NoticeTick(e, q)] + [NoticeSettle(c, true)];
            var was, mid := At(cfg, start, run).t.notices[q[0]], At(cfg, start, sent).t.notices;
            var end := At(cfg, start, sent + [NoticeSettle(e, false)]).t.notices;
            && q[0] in mid && mid[q[0]].delivery == Sent
            && q[0] in end && end[q[0]] != mid[q[0]]
            && (was.retries >= cfg.maxRetries ==> end[q[0]].delivery == Failed)
            && (was.retries < cfg.maxRetries ==> end[q[0]].retries == was.retries + 1)
  {
    var s0 := At(cfg, start, run);
    var read := map r | r in s0.t.notices :: s0.t.notices[r].retries;
    Next(cfg, start, run, NoticeTick(c, q));
    TickStarts(cfg, s0, c, q);
    var r1 := run + [NoticeTick(c, q)];
    Next(cfg, start, r1, NoticeTick(e, q));
    TickStarts(cfg, At(cfg, start, r1), e, q);
    var r2 := r1 + [NoticeTick(e, q)];
    Next(cfg, start, r2, NoticeSettle(c, true));
    HeadSettles(cfg, At(cfg, start, r2), c, q, read, true);
    var r3 := r2 + [NoticeSettle(c, true)];
    Next(cfg, start, r3, NoticeSettle(e, false));
    HeadSettles(cfg, At(cfg, start, r3), e, q, read, false);
  }

  // ------------------------------------------------------------------------------- the bound is reached

  function TickAll(cs: seq<nat>, n: Id): seq<Action> {
    if cs == [] then [] else TickAll(cs[..|cs| - 1], n) + [NoticeTick(cs[|cs| - 1], [n])]
  }

  /** Each tick gets a refusal for the one notice on its list, and ends. */
  function FailAll(cs: seq<nat>): seq<Action> {
    if cs == [] then []
    else FailAll(cs[..|cs| - 1]) + [NoticeSettle(cs[|cs| - 1], false)] + [NoticeSettle(cs[|cs| - 1], false)]
  }

  lemma DispatchedNext(cfg: Config, start: Time, run: seq<Action>, longer: seq<Action>, a: Action, n: Id)
    requires longer == run + [a]
    ensures At(cfg, start, longer) == Step(cfg, At(cfg, start, run), a)
    ensures TimesDispatched(cfg, start, longer, n)
         == TimesDispatched(cfg, start, run, n) + (if Dispatching(At(cfg, start, run), a, n) then 1 else 0)
  {
    assert longer[..|run|] == run;
  }

  lemma WayGrows(cfg: Config, s: State, a: Action)
    ensures UnderWay(Step(cfg, s, a)) <= UnderWay(s) + (if a.NoticeTick? then {a.call} else {})
  {
    CallsEnter(cfg, s, a);
  }

  lemma WayNext(cfg: Config, start: Time, run: seq<Action>, longer: seq<Action>, a: Action)
    requires longer == run + [a]
    ensures |UnderWay(At(cfg, start, longer))|
         <= |UnderWay(At(cfg, start, run))| + (if a.NoticeTick? then 1 else 0)
    ensures MostUnderWay(cfg, start, longer)
         == Max(MostUnderWay(cfg, start, run), |UnderWay(At(cfg, start, longer))|)
  {
    var s := At(cfg, start, run);
    assert longer[..|run|] == run;
    WayGrows(cfg, s, a);
    SubsetIsNoLarger(UnderWay(Step(cfg, s, a)), UnderWay(s) + (if a.NoticeTick? then {a.call} else {}));
  }

  lemma {:induction false} TicksUnderWay(cfg: Config, start: Time, run: seq<Action>, longer: seq<Action>, n: Id,
                                         cs: seq<nat>)
    requires longer == run + TickAll(cs, n)
    ensures |UnderWay(At(cfg, start, longer))| <= |UnderWay(At(cfg, start, run))| + |cs|
    ensures MostUnderWay(cfg, start, longer)
         <= Max(MostUnderWay(cfg, start, run), |UnderWay(At(cfg, start, run))| + |cs|)
    decreases |cs|
  {
    if cs == [] {
      assert longer == run;
    } else {
      var c, before := cs[|cs| - 1], cs[..|cs| - 1];
      var mid := run + TickAll(before, n);
      TicksUnderWay(cfg, start, run, mid, n, before);
      WayNext(cfg, start, mid, longer, NoticeTick(c, [n]));
    }
  }

  lemma {:induction false} FailsUnderWay(cfg: Config, start: Time, run: seq<Action>, longer: seq<Action>, cs: seq<nat>)
    requires longer == run + FailAll(cs)
    ensures |UnderWay(At(cfg, start, longer))| <= |UnderWay(At(cfg, start, run))|
    ensures MostUnderWay(cfg, start, longer)
         <= Max(MostUnderWay(cfg, start, run), |UnderWay(At(cfg, start, run))|)
    decreases |cs|
  {
    if cs == [] {
      assert longer == run;
    } else {
      var c, before := cs[|cs| - 1], cs[..|cs| - 1];
      var r1 := run + FailAll(before);
      var r2 := r1 + [NoticeSettle(c, false)];
      FailAllNext(run, cs);
      FailsUnderWay(cfg, start, run, r1, before);
      WayNext(cfg, start, r1, r2, NoticeSettle(c, false));
      WayNext(cfg, start, r2, longer, NoticeSettle(c, false));
    }
  }

  function RetriesNow(s: State): map<Id, nat> {
    map r | r in s.t.notices :: s.t.notices[r].retries
  }

  /** Any number of ticks can start on one queue. */
  lemma {:induction false} TicksCanOverlap(cfg: Config, start: Time, run: seq<Action>, longer: seq<Action>, n: Id,
                                           cs: seq<nat>)
    requires var s := At(cfg, start, run); AllIdle(s, cs) && IsQueue(s.t.notices, [n])
    requires longer == run + TickAll(cs, n)
    ensures var s, s' := At(cfg, start, run), At(cfg, start, longer);
            && s'.t == s.t && s'.calls.Keys == s.calls.Keys + Elements(cs)
            && (forall c | c in cs :: s'.calls[c] == NoticeCall([n], RetriesNow(s)))
            && (forall c | c in s.calls :: s'.calls[c] == s.calls[c])
            && TimesDispatched(cfg, start, longer, n) == TimesDispatched(cfg, start, run, n)
    decreases |cs|
  {
    if cs == [] {
      assert longer == run;
    } else {
      var c, before := cs[|cs| - 1], cs[..|cs| - 1];
      var mid := run + TickAll(before, n);
      LastIsNew(cs);
      TicksCanOverlap(cfg, start, run, mid, n, before);
      DispatchedNext(cfg, start, mid, longer, NoticeTick(c, [n]), n);
      TickStarts(cfg, At(cfg, start, mid), c, [n]);
    }
  }

  /** What j refusals do to a notice when the ticks had read the count `read`. */
  function Refused(row: Notice, read: nat, maxRetries: int, j: nat): Notice {
    if j == 0 then row else Settled(Refused(row, read, maxRetries, j - 1), read, false, maxRetries)
  }

  lemma {:induction false} RefusedRow(row: Notice, read: nat, maxRetries: int, j: nat)
    ensures Refused(row, read, maxRetries, j)
         == if j == 0 then row else if read < maxRetries then row.(retries := row.retries + j)
            else row.(delivery := Failed)
  {
    if j > 0 {
      RefusedRow(row, read, maxRetries, j - 1);
    }
  }

  /** One tick with a single notice on its list: a refusal, and its end. */
  lemma TickFails(cfg: Config, s: State, c: nat, n: Id, read: map<Id, nat>)
    requires c in s.calls && s.calls[c] == NoticeCall([n], read) && n in s.t.notices && n in read
    ensures var s1 := Step(cfg, s, NoticeSettle(c, false));
            var s2 := Step(cfg, s1, NoticeSettle(c, false));
            && s2.calls == s.calls - {c} && Dispatching(s, NoticeSettle(c, false), n)
            && !Dispatching(s1, NoticeSettle(c, false), n)
            && s2.t.notices == s.t.notices[n := Settled(s.t.notices[n], read[n], false, cfg.maxRetries)]
  {
    HeadSettles(cfg, s, c, [n], read, false);
    ListEnds(cfg, Step(cfg, s, NoticeSettle(c, false)), c, false);
  }

  lemma FailAllNext(run: seq<Action>, cs: seq<nat>)
    requires cs != []
    ensures var c, before := cs[|cs| - 1], cs[..|cs| - 1];
            run + FailAll(cs) == run + FailAll(before) + [NoticeSettle(c, false)] + [NoticeSettle(c, false)]
  {
  }

  lemma TickFailsNext(cfg: Config, start: Time, r1: seq<Action>, r2: seq<Action>, r3: seq<Action>, c: nat, n: Id,
                      read: map<Id, nat>)
    requires var s := At(cfg, start, r1);
             c in s.calls && s.calls[c] == NoticeCall([n], read) && n in s.t.notices && n in read
    requires r2 == r1 + [NoticeSettle(c, false)] && r3 == r2 + [NoticeSettle(c, false)]
    ensures var s, s' := At(cfg, start, r1), At(cfg, start, r3);
            && s'.calls == s.calls - {c}
            && s'.t.notices == s.t.notices[n := Settled(s.t.notices[n], read[n], false, cfg.maxRetries)]
            && TimesDispatched(cfg, start, r3, n) == TimesDispatched(cfg, start, r1, n) + 1
  {
    DispatchedNext(cfg, start, r1, r2, NoticeSettle(c, false), n);
    DispatchedNext(cfg, start, r2, r3, NoticeSettle(c, false), n);
    TickFails(cfg, At(cfg, start, r1), c, n, read);
  }

  /** Ticks with n on their list, all with the same reading. */
  ghost predicate AllWaiting(s: State, cs: seq<nat>, n: Id, read: map<Id, nat>) {
    && n in s.t.notices && n in read && Distinct(cs)
    && forall c | c in cs :: c in s.calls && s.calls[c] == NoticeCall([n], read)
  }

  /** Those ticks have been refused and have ended. */
  ghost predicate AllRefused(cfg: Config, s: State, s': State, cs: seq<nat>, n: Id, read: nat)
    requires n in s.t.notices
  {
    && s'.t.notices == s.t.notices[n := Refused(s.t.notices[n], read, cfg.maxRetries, |cs|)]
    && s'.calls == s.calls - Elements(cs)
  }

  lemma LastStillWaits(cfg: Config, s: State, s': State, cs: seq<nat>, n: Id, read: map<Id, nat>)
    requires AllWaiting(s, cs, n, read) && cs != [] && AllRefused(cfg, s, s', cs[..|cs| - 1], n, read[n])
    ensures var c := cs[|cs| - 1]; n in s'.t.notices && c in s'.calls && s'.calls[c] == NoticeCall([n], read)
  {
    LastIsNew(cs);
  }

  lemma LastIsRefused(cfg: Config, s: State, s1: State, s2: State, cs: seq<nat>, n: Id, read: map<Id, nat>)
    requires AllWaiting(s, cs, n, read) && cs != [] && AllRefused(cfg, s, s1, cs[..|cs| - 1], n, read[n])
    requires s2.calls == s1.calls - {cs[|cs| - 1]}
    requires s2.t.notices == s1.t.notices[n := Settled(s1.t.notices[n], read[n], false, cfg.maxRetries)]
    ensures AllRefused(cfg, s, s2, cs, n, read[n])
  {
    DropOneMore(s.calls, cs);
  }

  lemma {:induction false} AllFail(cfg: Config, start: Time, run: seq<Action>, longer: seq<Action>, n: Id,
                                   cs: seq<nat>, read: map<Id, nat>)
    requires AllWaiting(At(cfg, start, run), cs, n, read) && longer == run + FailAll(cs)
    ensures AllRefused(cfg, At(cfg, start, run), At(cfg, start, longer), cs, n, read[n])
    ensures TimesDispatched(cfg, start, longer, n) == TimesDispatched(cfg, start, run, n) + |cs|
    decreases |cs|
  {
    var s := At(cfg, start, run);
    if cs == [] {
      assert longer == run;
      assert s.calls - Elements(cs) == s.calls;
    } else {
      var c, before := cs[|cs| - 1], cs[..|cs| - 1];
      var r1 := run + FailAll(before);
      var r2 := r1 + [NoticeSettle(c, false)];
      FailAllNext(run, cs);
      LastIsNew(cs);
      AllFail(cfg, start, run, r1, n, before, read);
      LastStillWaits(cfg, s, At(cfg, start, r1), cs, n, read);
      TickFailsNext(cfg, start, r1, r2, longer, c, n, read);
      LastIsRefused(cfg, s, At(cfg, start, r1), At(cfg, start, longer), cs, n, read);
    }
  }

  /** No tick is under way, at most m ever were, and notice n has been dispatched k times. */
  ghost predicate Calm(cfg: Config, start: Time, run: seq<Action>, n: Id, m: nat, k: nat) {
    && UnderWay(At(cfg, start, run)) == {} && MostUnderWay(cfg, start, run) <= m
    && TimesDispatched(cfg, start, run, n) == k
  }

  /** Notice n is the only one queued, with r retries. */
  ghost predicate Alone(s: State, n: Id, r: nat) {
    IsQueue(s.t.notices, [n]) && n in s.t.notices && s.t.notices[n].retries == r
  }

  /** A round of overlapping ticks: all start, then all get a refusal. */
  function Round(cs: seq<nat>, n: Id): seq<Action> {
    TickAll(cs, n) + FailAll(cs)
  }

  lemma RoundRuns(cfg: Config, start: Time, run: seq<Action>, mid: seq<Action>, longer: seq<Action>, n: Id, r: nat,
                  cs: seq<nat>)
    requires var s := At(cfg, start, run); AllIdle(s, cs) && Alone(s, n, r)
    requires mid == run + TickAll(cs, n) && longer == mid + FailAll(cs)
    ensures var s, s' := At(cfg, start, run), At(cfg, start, longer);
            && s'.t.notices == s.t.notices[n := Refused(s.t.notices[n], r, cfg.maxRetries, |cs|)]
            && s'.calls == s.calls
            && TimesDispatched(cfg, start, longer, n) == TimesDispatched(cfg, start, run, n) + |cs|
  {
    TicksCanOverlap(cfg, start, run, mid, n, cs);
    AllFail(cfg, start, mid, longer, n, cs, RetriesNow(At(cfg, start, run)));
    AddedThenDropped(At(cfg, start, run).calls, At(cfg, start, mid).calls, cs);
  }

  lemma RoundUnderWay(cfg: Config, start: Time, run: seq<Action>, mid: seq<Action>, longer: seq<Action>, n: Id,
                      cs: seq<nat>)
    requires mid == run + TickAll(cs, n) && longer == mid + FailAll(cs)
    ensures MostUnderWay(cfg, start, longer)
         <= Max(MostUnderWay(cfg, start, run), |UnderWay(At(cfg, start, run))| + |cs|)
  {
    TicksUnderWay(cfg, start, run, mid, n, cs);
    FailsUnderWay(cfg, start, mid, longer, cs);
  }

  lemma RoundHalves(run: seq<Action>, cs: seq<nat>, n: Id)
    ensures run + Round(cs, n) == run + TickAll(cs, n) + FailAll(cs)
  {
  }

  lemma RoundStaysCalm(cfg: Config, start: Time, run: seq<Action>, mid: seq<Action>, longer: seq<Action>, n: Id,
                       cs: seq<nat>, m: nat, k: nat)
    requires Calm(cfg, start, run, n, m, k) && |cs| <= m && mid == run + TickAll(cs, n) && longer == mid + FailAll(cs)
    requires At(cfg, start, longer).calls == At(cfg, start, run).calls
    requires TimesDispatched(cfg, start, longer, n) == TimesDispatched(cfg, start, run, n) + |cs|
    ensures Calm(cfg, start, longer, n, m, k + |cs|)
  {
    RoundUnderWay(cfg, start, run, mid, longer, n, cs);
    assert UnderWay(At(cfg, start, longer)) == UnderWay(At(cfg, start, run));
  }

  lemma StillAlone(s: State, s': State, n: Id, r: nat, j: nat)
    requires Alone(s, n, r) && s'.t.notices == s.t.notices[n := s.t.notices[n].(retries := r + j)]
    ensures Alone(s', n, r + j)
  {
  }

  /** A round of up to m ticks adds their number to the dispatches; below the cap the notice stays queued. */
  lemma RoundCounts(cfg: Config, start: Time, run: seq<Action>, longer: seq<Action>, n: Id, r: nat, cs: seq<nat>,
                    m: nat, k: nat)
    requires Calm(cfg, start, run, n, m, k) && |cs| <= m && longer == run + Round(cs, n)
    requires var s := At(cfg, start, run); AllIdle(s, cs) && Alone(s, n, r)
    ensures Calm(cfg, start, longer, n, m, k + |cs|)
    ensures At(cfg, start, longer).calls == At(cfg, start, run).calls
    ensures r < cfg.maxRetries ==> Alone(At(cfg, start, longer), n, r + |cs|)
  {
    var mid := run + TickAll(cs, n);
    RoundHalves(run, cs, n);
    RoundRuns(cfg, start, run, mid, longer, n, r, cs);
    RoundStaysCalm(cfg, start, run, mid, longer, n, cs, m, k);
    RefusedRow(At(cfg, start, run).t.notices[n], r, cfg.maxRetries, |cs|);
    if r < cfg.maxRetries {
      StillAlone(At(cfg, start, run), At(cfg, start, longer), n, r, |cs|);
    }
  }

  /** j ticks one after another. */
  function OneByOne(j: nat, c: nat, n: Id): seq<Action> {
    if j == 0 then [] else OneByOne(j - 1, c, n) + Round([c], n)
  }

  lemma {:induction false} OneByOneCounts(cfg: Config, start: Time, run: seq<Action>, longer: seq<Action>, n: Id,
                                          j: nat, c: nat, m: nat, k: nat)
    requires Calm(cfg, start, run, n, m, k) && m >= 1 && j <= Cap(cfg.maxRetries) && longer == run + OneByOne(j, c, n)
    requires Idle(At(cfg, start, run), c) && Alone(At(cfg, start, run), n, 0)
    ensures Calm(cfg, start, longer, n, m, k + j) && Alone(At(cfg, start, longer), n, j)
    ensures At(cfg, start, longer).calls == At(cfg, start, run).calls
    decreases j
  {
    if j == 0 {
      assert longer == run;
    } else {
      var mid := run + OneByOne(j - 1, c, n);
      assert longer == mid + Round([c], n);
      OneByOneCounts(cfg, start, run, mid, n, j - 1, c, m, k);
      RoundCounts(cfg, start, mid, longer, n, j - 1, [c], m, k + j - 1);
    }
  }

  /** All retries but one used up by ticks one after another, then two rounds of as many as may overlap. */
  function WorstCase(cap: nat, cs: seq<nat>, n: Id): seq<Action>
    requires cs != []
  {
    if cap == 0 then Round(cs, n) else OneByOne(cap - 1, cs[0], n) + Round(cs, n) + Round(cs, n)
  }

  lemma WorstCaseCounts(cfg: Config, start: Time, run: seq<Action>, r1: seq<Action>, r2: seq<Action>, r3: seq<Action>,
                        n: Id, cs: seq<nat>, k: nat)
    requires Cap(cfg.maxRetries) >= 1 && cs != [] && Calm(cfg, start, run, n, |cs|, k)
    requires AllIdle(At(cfg, start, run), cs) && Alone(At(cfg, start, run), n, 0)
    requires r1 == run + OneByOne(Cap(cfg.maxRetries) - 1, cs[0], n)
    requires r2 == r1 + Round(cs, n) && r3 == r2 + Round(cs, n)
    ensures Calm(cfg, start, r3, n, |cs|, k + PerLock(Cap(cfg.maxRetries) + 1, |cs|))
  {
    var j := Cap(cfg.maxRetries) - 1;
    OneByOneCounts(cfg, start, run, r1, n, j, cs[0], |cs|, k);
    RoundCounts(cfg, start, r1, r2, n, j, cs, |cs|, k + j);
    RoundCounts(cfg, start, r2, r3, n, j + |cs|, cs, |cs|, k + j + |cs|);
  }

  lemma WorstCaseSplits(cap: nat, run: seq<Action>, cs: seq<nat>, n: Id)
    requires cap >= 1 && cs != []
    ensures run + WorstCase(cap, cs, n) == run + OneByOne(cap - 1, cs[0], n) + Round(cs, n) + Round(cs, n)
  {
  }

  lemma WorstCaseRuns(cfg: Config, start: Time, run: seq<Action>, longer: seq<Action>, n: Id, cs: seq<nat>)
    requires cs != [] && Calm(cfg, start, run, n, |cs|, 0)
    requires AllIdle(At(cfg, start, run), cs) && Alone(At(cfg, start, run), n, 0)
    requires longer == run + WorstCase(Cap(cfg.maxRetries), cs, n)
    ensures Calm(cfg, start, longer, n, |cs|, PerLock(Cap(cfg.maxRetries) + 1, |cs|))
  {
    var cap := Cap(cfg.maxRetries);
    if cap == 0 {
      RoundCounts(cfg, start, run, longer, n, 0, cs, |cs|, 0);
    } else {
      var r1 := run + OneByOne(cap - 1, cs[0], n);
      var r2 := r1 + Round(cs, n);
      WorstCaseSplits(cap, run, cs, n);
      WorstCaseCounts(cfg, start, run, r1, r2, longer, n, cs, 0);
    }
  }

  /** A queued notice without retries has not been dispatched. */
  lemma CalmAtFirst(cfg: Config, start: Time, run: seq<Action>, n: Id, m: nat)
    requires m >= 1 && UnderWay(At(cfg, start, run)) == {} && MostUnderWay(cfg, start, run) <= m
    requires Alone(At(cfg, start, run), n, 0)
    ensures Calm(cfg, start, run, n, m, 0)
  {
    CountedInRuns(cfg, start, run, n, m);
    NewEntry(At(cfg, start, run).t.notices, [n], n);
  }

  /**
   * The dispatch bound is sharp: where an untried notice is the only one queued and no tick is under way, a run with no
   * more than m ticks under way at once dispatches it PerLock(cap + 1, m) times.
   */
  lemma NoticeBoundIsReached(cfg: Config, start: Time, run: seq<Action>, longer: seq<Action>, n: Id, cs: seq<nat>)
    requires cs != [] && UnderWay(At(cfg, start, run)) == {} && MostUnderWay(cfg, start, run) <= |cs|
    requires AllIdle(At(cfg, start, run), cs) && Alone(At(cfg, start, run), n, 0)
    requires longer == run + WorstCase(Cap(cfg.maxRetries), cs, n)
    ensures MostUnderWay(cfg, start, longer) <= |cs|
    ensures TimesDispatched(cfg, start, longer, n) == PerLock(Cap(cfg.maxRetries) + 1, |cs|)
  {
    CalmAtFirst(cfg, start, run, n, |cs|);
    WorstCaseRuns(cfg, start, run, longer, n, cs);
  }
}
