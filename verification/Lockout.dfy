/**
 * The lockout bound on runs of the whole service. While bcrypt runs a login keeps the failure count it has read, so
 * what the policy guarantees depends on how many logins on the account are in flight at once.
 */
module Lockout {
  import opened Prelude
  import opened Schema
  import opened Auth
  import opened System
  import opened Steps
  import opened Frames
  import opened Lifecycle

  function InFlight(s: State, u: Id): set<nat> {
    set c | c in s.calls && LoginOn(s, c, u)
  }

  /** The most logins on u that were ever comparing at the same time. */
  ghost function MostInFlight(cfg: Config, start: Time, run: seq<Action>, u: Id): nat {
    if run == [] then 0
    else Max(MostInFlight(cfg, start, run[..|run| - 1], u), |InFlight(At(cfg, start, run), u)|)
  }

  /** Does this action start a login on u? */
  ghost predicate Starts(cfg: Config, s: State, a: Action, u: Id) {
    && a.LoginBegin? && Idle(s, a.call)
    && var r := Begun(cfg, s.t, s.clock, a.email, a.password); r.Comparing? && r.attempt.userId == u
  }

  predicate Finishes(s: State, a: Action, u: Id) {
    a.LoginFinish? && LoginOn(s, a.call, u)
  }

  /** When u's wrong-password comparisons happened, counting from the last successful one. */
  ghost function WrongTimes(cfg: Config, start: Time, run: seq<Action>, u: Id): seq<Time> {
    if run == [] then []
    else
      var s := At(cfg, start, run[..|run| - 1]);
      var a := run[|run| - 1];
      var earlier := WrongTimes(cfg, start, run[..|run| - 1], u);
      if !Finishes(s, a, u) then earlier
      else if s.calls[a.call].attempt.matched then []
      else earlier + [s.clock]
  }

  /** This failure reaches the threshold, by the count its login had read. */
  predicate LocksBy(cfg: Config, p: Auth.Attempt) {
    p.failures + 1 >= cfg.threshold
  }

  /** Which of them set a lock. */
  ghost function LockFlags(cfg: Config, start: Time, run: seq<Action>, u: Id): seq<bool> {
    if run == [] then []
    else
      var s := At(cfg, start, run[..|run| - 1]);
      var a := run[|run| - 1];
      var earlier := LockFlags(cfg, start, run[..|run| - 1], u);
      if !Finishes(s, a, u) then earlier
      else if s.calls[a.call].attempt.matched then []
      else earlier + [LocksBy(cfg, s.calls[a.call].attempt)]
  }

  // ------------------------------------------------------------------------------------------- the tally

  /** How many failures came after the last lock. */
  function Trail(l: seq<bool>): nat {
    if l == [] || l[|l| - 1] then 0 else Trail(l[..|l| - 1]) + 1
  }

  lemma {:induction false} TrailStops(l: seq<bool>)
    ensures Trail(l) <= |l|
    ensures Trail(l) < |l| ==> l[|l| - 1 - Trail(l)]
    ensures forall p | 0 <= p < |l| && l[p] :: p <= |l| - 1 - Trail(l)
  {
    if l != [] && !l[|l| - 1] {
      TrailStops(l[..|l| - 1]);
    }
  }

  lemma TrailNext(l: seq<bool>, b: bool)
    ensures Trail(l + [b]) == if b then 0 else Trail(l) + 1
  {
    assert (l + [b])[..|l|] == l;
  }

  /** Logins in flight that will not lock, having read a count below the threshold. */
  function Stale(cfg: Config, s: State, u: Id): set<nat> {
    set c | c in InFlight(s, u) && !LocksBy(cfg, s.calls[c].attempt)
  }

  /** The row shows t failures since the last lock, and that lock. */
  predicate RowShows(row: User, w: seq<Time>, t: nat, d: int) {
    row.failedLogins == t && (t < |w| ==> row.lockedUntil == Some(w[|w| - 1 - t] + d))
  }

  ghost predicate RowAgrees(cfg: Config, row: User, w: seq<Time>, l: seq<bool>) {
    RowShows(row, w, Trail(l), cfg.lockoutMs)
  }

  /** Once the counter has reached threshold - 1, only logins that started before can fail without locking. */
  ghost predicate StaleFew(cfg: Config, s: State, u: Id, l: seq<bool>, m: nat) {
    Trail(l) + 1 >= cfg.threshold ==> Trail(l) + 1 - cfg.threshold + |Stale(cfg, s, u)| <= m - 1
  }

  ghost predicate StretchesShort(l: seq<bool>, r: nat) {
    forall n | 0 <= n <= |l| :: Trail(l[..n]) <= r
  }

  /** While a lock runs, no login starts: those that fail meanwhile were in flight when it was set. */
  ghost predicate FewAfterLock(s: State, u: Id, w: seq<Time>, l: seq<bool>, d: int, m: nat)
    requires |w| == |l|
  {
    forall p | 0 <= p < |l| && l[p] && s.clock < w[p] + d :: |w| - 1 - p + |InFlight(s, u)| <= m - 1
  }

  /** The m-th failure after a lock, and all later ones, come after it has run out. */
  ghost predicate LocksHold(w: seq<Time>, l: seq<bool>, d: int, m: nat)
    requires |w| == |l|
  {
    forall p, j | 0 <= p < |l| && l[p] && p + m <= j < |w| :: w[j] >= w[p] + d
  }

  ghost predicate Tally(cfg: Config, s: State, u: Id, w: seq<Time>, l: seq<bool>, m: nat)
    requires cfg.threshold >= 1 && m >= 1
  {
    && |w| == |l| && Ascending(w) && (forall i | 0 <= i < |w| :: w[i] <= s.clock)
    && (u !in s.t.users ==> w == [] && InFlight(s, u) == {})
    && (u in s.t.users ==> RowAgrees(cfg, s.t.users[u], w, l))
    && StaleFew(cfg, s, u, l, m)
    && StretchesShort(l, Stretch(cfg.threshold, m))
    && FewAfterLock(s, u, w, l, cfg.lockoutMs, m)
    && LocksHold(w, l, cfg.lockoutMs, m)
  }

  /** The part of a step that matters here: u's counter and lock stay, and no login on u starts. */
  ghost predicate Untouched(s: State, s': State, u: Id) {
    && s.clock <= s'.clock
    && (u in s.t.users ==> u in s'.t.users && s'.t.users[u].failedLogins == s.t.users[u].failedLogins
                           && s'.t.users[u].lockedUntil == s.t.users[u].lockedUntil)
    && (u !in s.t.users && u in s'.t.users ==> s'.t.users[u].failedLogins == 0)
    && (forall c | LoginOn(s', c, u) :: c in s.calls && s'.calls[c] == s.calls[c])
  }

  lemma FewerInFlight(cfg: Config, s: State, s': State, u: Id)
    requires forall c | LoginOn(s', c, u) :: c in s.calls && s'.calls[c] == s.calls[c]
    ensures InFlight(s', u) <= InFlight(s, u) && |InFlight(s', u)| <= |InFlight(s, u)|
    ensures |Stale(cfg, s', u)| <= |Stale(cfg, s, u)|
  {
    SubsetIsNoLarger(InFlight(s', u), InFlight(s, u));
    SubsetIsNoLarger(Stale(cfg, s', u), Stale(cfg, s, u));
  }

  lemma UntouchedKeepsTally(cfg: Config, s: State, s': State, u: Id, w: seq<Time>, l: seq<bool>, m: nat)
    requires cfg.threshold >= 1 && m >= 1 && Tally(cfg, s, u, w, l, m) && Untouched(s, s', u)
    ensures Tally(cfg, s', u, w, l, m)
  {
    FewerInFlight(cfg, s, s', u);
  }

  lemma LoginOfAnother(cfg: Config, s: State, call: nat, sid: Id, token: string, u: Id)
    requires call in s.calls && s.calls[call].LoginCall? && s.calls[call].attempt.userId != u
    ensures var s' := FinishLogin(cfg, s, call, sid, token);
            && (u in s.t.users ==> u in s'.t.users && s'.t.users[u] == s.t.users[u])
            && (u in s'.t.users ==> u in s.t.users)
  {
    LoginFrame(cfg, s, call, sid, token);
  }

  lemma OthersLeaveItUntouched(cfg: Config, s: State, a: Action, u: Id)
    requires !Finishes(s, a, u) && !Starts(cfg, s, a, u)
    ensures Untouched(s, Step(cfg, s, a), u)
  {
    ClockForward(cfg, s, a);
    NoneStarts(cfg, s, a, u);
    if a.LoginFinish? {
      if a.call in s.calls && s.calls[a.call].LoginCall? {
        LoginOfAnother(cfg, s, a.call, a.sid, a.token, u);
      }
    } else {
      OthersKeepCounters(cfg, s, a);
    }
  }

  lemma NoneStarts(cfg: Config, s: State, a: Action, u: Id)
    requires !Starts(cfg, s, a, u)
    ensures forall c | LoginOn(Step(cfg, s, a), c, u) :: c in s.calls && Step(cfg, s, a).calls[c] == s.calls[c]
  {
    CallsEnter(cfg, s, a);
  }

  lemma StartShape(cfg: Config, s: State, a: Action, u: Id)
    requires Starts(cfg, s, a, u)
    ensures var s' := Step(cfg, s, a);
            && s'.t == s.t && s'.clock == s.clock && u in s.t.users && !LockedAt(s.t.users[u], s.clock)
            && a.call in s'.calls && s'.calls[a.call].LoginCall?
            && s'.calls[a.call].attempt.failures == s.t.users[u].failedLogins
            && InFlight(s', u) == InFlight(s, u) + {a.call} && a.call !in InFlight(s, u)
            && (forall c | c in InFlight(s, u) :: s'.calls[c] == s.calls[c])
  {
  }

  lemma StartKeepsStaleFew(cfg: Config, s: State, a: Action, u: Id, l: seq<bool>, m: nat)
    requires Starts(cfg, s, a, u) && StaleFew(cfg, s, u, l, m) && s.t.users[u].failedLogins == Trail(l)
    ensures StaleFew(cfg, Step(cfg, s, a), u, l, m)
  {
    StartShape(cfg, s, a, u);
    if Trail(l) + 1 >= cfg.threshold {
      assert Stale(cfg, Step(cfg, s, a), u) == Stale(cfg, s, u);
    }
  }

  /** A login on u that starts reads the current counter, and no lock of the list is running. */
  lemma StartKeepsTally(cfg: Config, s: State, a: Action, u: Id, w: seq<Time>, l: seq<bool>, m: nat)
    requires cfg.threshold >= 1 && m >= 1 && Tally(cfg, s, u, w, l, m) && Starts(cfg, s, a, u)
    ensures Tally(cfg, Step(cfg, s, a), u, w, l, m)
  {
    StartShape(cfg, s, a, u);
    StartKeepsStaleFew(cfg, s, a, u, l, m);
    NoLockRuns(cfg, s, u, w, l);
  }

  lemma NoLockRuns(cfg: Config, s: State, u: Id, w: seq<Time>, l: seq<bool>)
    requires |w| == |l| && Ascending(w) && u in s.t.users && RowAgrees(cfg, s.t.users[u], w, l)
    requires !LockedAt(s.t.users[u], s.clock)
    ensures forall q | 0 <= q < |l| && l[q] :: s.clock >= w[q] + cfg.lockoutMs
  {
    TrailStops(l);
    forall q | 0 <= q < |l| && l[q] ensures s.clock >= w[q] + cfg.lockoutMs {
      var last := |l| - 1 - Trail(l);
      assert q == last || w[q] <= w[last];
    }
  }

  lemma SuccessKeepsTally(cfg: Config, s: State, a: Action, u: Id, w: seq<Time>, l: seq<bool>, m: nat)
    requires cfg.threshold >= 1 && m >= 1 && Tally(cfg, s, u, w, l, m) && Finishes(s, a, u)
    requires s.calls[a.call].attempt.matched
    ensures Tally(cfg, Step(cfg, s, a), u, [], [], m)
  {
    assert a.call in InFlight(s, u);
    LoginFrame(cfg, s, a.call, a.sid, a.token);
    var s' := Step(cfg, s, a);
    if cfg.threshold == 1 {
      assert Stale(cfg, s', u) == {};
    }
  }

  // A failure, clause by clause.

  lemma FailureLeaves(cfg: Config, s: State, a: Action, u: Id)
    requires Finishes(s, a, u)
    ensures var s', p := Step(cfg, s, a), s.calls[a.call].attempt;
            && s'.clock == s.clock && InFlight(s', u) == InFlight(s, u) - {a.call}
            && |InFlight(s', u)| == |InFlight(s, u)| - 1
            && |Stale(cfg, s', u)| == |Stale(cfg, s, u)| - (if LocksBy(cfg, p) then 0 else 1)
            && (u in s.t.users && !p.matched ==>
                  u in s'.t.users && s'.t.users[u] == AfterFailure(cfg, s.t.users[u], p.failures, s.clock))
            && (u !in s.t.users ==> u !in s'.t.users)
  {
    LoginFrame(cfg, s, a.call, a.sid, a.token);
    var s' := Step(cfg, s, a);
    assert InFlight(s', u) == InFlight(s, u) - {a.call};
    if LocksBy(cfg, s.calls[a.call].attempt) {
      assert Stale(cfg, s', u) == Stale(cfg, s, u);
    } else {
      assert Stale(cfg, s', u) == Stale(cfg, s, u) - {a.call};
    }
  }

  lemma RowMoves(cfg: Config, row: User, p: Auth.Attempt, now: Time, w: seq<Time>, t: nat)
    requires t <= |w| && RowShows(row, w, t, cfg.lockoutMs)
    ensures RowShows(AfterFailure(cfg, row, p.failures, now), w + [now], if LocksBy(cfg, p) then 0 else t + 1,
                     cfg.lockoutMs)
  {
  }

  lemma FailureKeepsRow(cfg: Config, row: User, p: Auth.Attempt, now: Time, w: seq<Time>, l: seq<bool>)
    requires |w| == |l| && RowAgrees(cfg, row, w, l)
    ensures RowAgrees(cfg, AfterFailure(cfg, row, p.failures, now), w + [now], l + [LocksBy(cfg, p)])
  {
    TrailStops(l);
    TrailNext(l, LocksBy(cfg, p));
    RowMoves(cfg, row, p, now, w, Trail(l));
  }

  lemma FailureKeepsStaleFew(cfg: Config, s: State, a: Action, u: Id, l: seq<bool>, m: nat)
    requires cfg.threshold >= 1 && m >= 1 && Finishes(s, a, u) && |InFlight(s, u)| <= m
    requires StaleFew(cfg, s, u, l, m) && StretchesShort(l, Stretch(cfg.threshold, m))
    ensures StaleFew(cfg, Step(cfg, s, a), u, l + [LocksBy(cfg, s.calls[a.call].attempt)], m)
    ensures StretchesShort(l + [LocksBy(cfg, s.calls[a.call].attempt)], Stretch(cfg.threshold, m))
  {
    var s', b := Step(cfg, s, a), LocksBy(cfg, s.calls[a.call].attempt);
    var l' := l + [b];
    FailureLeaves(cfg, s, a, u);
    TrailNext(l, b);
    SubsetIsNoLarger(Stale(cfg, s', u), InFlight(s', u));
    if cfg.threshold == 1 {
      assert Stale(cfg, s', u) == {};
    }
    forall n | 0 <= n <= |l'| ensures Trail(l'[..n]) <= Stretch(cfg.threshold, m) {
      if n == |l'| {
        assert l'[..n] == l';
      } else {
        assert l'[..n] == l[..n];
      }
    }
  }

  lemma FailureKeepsSpacing(cfg: Config, s: State, a: Action, u: Id, w: seq<Time>, l: seq<bool>, b: bool, m: nat)
    requires m >= 1 && |w| == |l| && Finishes(s, a, u) && |InFlight(s, u)| <= m
    requires FewAfterLock(s, u, w, l, cfg.lockoutMs, m) && LocksHold(w, l, cfg.lockoutMs, m)
    ensures FewAfterLock(Step(cfg, s, a), u, w + [s.clock], l + [b], cfg.lockoutMs, m)
    ensures LocksHold(w + [s.clock], l + [b], cfg.lockoutMs, m)
  {
    FailureLeaves(cfg, s, a, u);
    assert a.call in InFlight(s, u);
    NonEmpty(InFlight(s, u), a.call);
    var w', l' := w + [s.clock], l + [b];
    forall p, j | 0 <= p < |l'| && l'[p] && p + m <= j < |w'| ensures w'[j] >= w'[p] + cfg.lockoutMs {
      if j == |w| {
        assert l[p] && s.clock >= w[p] + cfg.lockoutMs;
      }
    }
    forall p | 0 <= p < |l'| && l'[p] && s.clock < w'[p] + cfg.lockoutMs
      ensures |w'| - 1 - p + |InFlight(Step(cfg, s, a), u)| <= m - 1
    {
      if p < |l| {
        assert l[p] && s.clock < w[p] + cfg.lockoutMs;
      }
    }
  }

  lemma NonEmpty<A>(s: set<A>, x: A)
    requires x in s
    ensures |s| >= 1
  {
  }

  lemma FailureKeepsTally(cfg: Config, s: State, a: Action, u: Id, w: seq<Time>, l: seq<bool>, m: nat)
    requires cfg.threshold >= 1 && m >= 1 && Tally(cfg, s, u, w, l, m) && Finishes(s, a, u) && |InFlight(s, u)| <= m
    requires !s.calls[a.call].attempt.matched
    ensures Tally(cfg, Step(cfg, s, a), u, w + [s.clock], l + [LocksBy(cfg, s.calls[a.call].attempt)], m)
  {
    var p := s.calls[a.call].attempt;
    assert a.call in InFlight(s, u);
    FailureLeaves(cfg, s, a, u);
    FailureKeepsRow(cfg, s.t.users[u], p, s.clock, w, l);
    FailureKeepsStaleFew(cfg, s, a, u, l, m);
    FailureKeepsSpacing(cfg, s, a, u, w, l, LocksBy(cfg, p), m);
  }

  /** On every run: counter, locks and logins in flight agree with the list of failures. */
  lemma {:induction false} TallyInRuns(cfg: Config, start: Time, run: seq<Action>, u: Id, m: nat)
    requires cfg.threshold >= 1 && m >= 1 && MostInFlight(cfg, start, run, u) <= m
    ensures Tally(cfg, At(cfg, start, run), u, WrongTimes(cfg, start, run, u), LockFlags(cfg, start, run, u), m)
  {
    if run == [] {
      assert InFlight(Initial(start), u) == {};
      assert Stale(cfg, Initial(start), u) == {};
    } else {
      var n := |run| - 1;
      var before, a := run[..n], run[n];
      var s := At(cfg, start, before);
      TallyInRuns(cfg, start, before, u, m);
      FlightBounded(cfg, start, before, u);
      var w, l := WrongTimes(cfg, start, before, u), LockFlags(cfg, start, before, u);
      if Finishes(s, a, u) {
        if s.calls[a.call].attempt.matched {
          SuccessKeepsTally(cfg, s, a, u, w, l, m);
        } else {
          FailureKeepsTally(cfg, s, a, u, w, l, m);
        }
      } else if Starts(cfg, s, a, u) {
        StartKeepsTally(cfg, s, a, u, w, l, m);
      } else {
        OthersLeaveItUntouched(cfg, s, a, u);
        UntouchedKeepsTally(cfg, s, At(cfg, start, run), u, w, l, m);
      }
    }
  }

  /** In every run the stored counter is the number of failures since the last lock, or the last success. */
  lemma CounterInRuns(cfg: Config, start: Time, run: seq<Action>, u: Id)
    requires cfg.threshold >= 1 && u in At(cfg, start, run).t.users
    ensures At(cfg, start, run).t.users[u].failedLogins == Trail(LockFlags(cfg, start, run, u))
  {
    TallyInRuns(cfg, start, run, u, Max(1, MostInFlight(cfg, start, run, u)));
  }

  lemma FlightBounded(cfg: Config, start: Time, run: seq<Action>, u: Id)
    ensures |InFlight(At(cfg, start, run), u)| <= MostInFlight(cfg, start, run, u)
  {
    if run == [] {
      assert InFlight(Initial(start), u) == {};
    }
  }

  // ------------------------------------------------------------------------------------------- the bound

  lemma FailuresSpaced(w: seq<Time>, l: seq<bool>, d: int, r: nat, m: nat)
    requires |w| == |l| && m >= 1 && Ascending(w) && StretchesShort(l, r) && LocksHold(w, l, d, m)
    ensures Spaced(w, r + m, d)
  {
    forall i, j | 0 <= i < |w| && 0 <= j < |w| && j == i + (r + m) ensures w[j] - w[i] >= d {
      var n := i + r + 1;
      TrailStops(l[..n]);
      var p := n - 1 - Trail(l[..n]);
      assert l[p];
      assert p == i || w[i] <= w[p];
    }
  }

  lemma FailuresSpacedInRuns(cfg: Config, start: Time, run: seq<Action>, u: Id, m: nat)
    requires cfg.threshold >= 1 && m >= 1 && MostInFlight(cfg, start, run, u) <= m
    ensures Ascending(WrongTimes(cfg, start, run, u))
    ensures Spaced(WrongTimes(cfg, start, run, u), PerLock(cfg.threshold, m), cfg.lockoutMs)
  {
    TallyInRuns(cfg, start, run, u, m);
    FailuresSpaced(WrongTimes(cfg, start, run, u), LockFlags(cfg, start, run, u), cfg.lockoutMs,
                   Stretch(cfg.threshold, m), m);
  }

  lemma {:induction false} CountAdds(times: seq<int>, a: int, b: int, c: int)
    requires a <= b <= c
    ensures CountIn(times, a, c) == CountIn(times, a, b) + CountIn(times, b, c)
  {
    if times != [] {
      CountAdds(times[..|times| - 1], a, b, c);
    }
  }

  lemma {:induction false} BoundAdds(times: seq<int>, d: nat, m: nat, from: int, k: nat)
    requires Ascending(times) && Spaced(times, m, d)
    ensures CountIn(times, from, from + k * d) <= k * m
  {
    if k == 0 {
      EmptyInterval(times, from, from);
    } else {
      var mid := from + (k - 1) * d;
      assert k * d == (k - 1) * d + d && k * m == (k - 1) * m + m && (k - 1) * d >= 0;
      BoundAdds(times, d, m, from, k - 1);
      SpacingBoundsCount(times, m, mid, d);
      CountAdds(times, from, mid, mid + d);
    }
  }

  lemma BoundFromSpacing(w: seq<Time>, d: int, most: nat, from: Time, k: nat)
    requires Ascending(w) && Spaced(w, most, d)
    ensures CountIn(w, from, from + k * d) <= k * most
  {
    if d < 0 {
      assert k * d <= 0 && k * most >= 0;
      EmptyInterval(w, from, from + k * d);
    } else {
      BoundAdds(w, d, most, from, k);
    }
  }

  /**
   * The lockout bound, for every run: where at most m logins on u are ever in flight at once, an interval as long as k
   * lock durations holds at most k * PerLock(threshold, m) wrong-password comparisons since u's last successful one,
   * which is k * threshold when logins do not overlap.
   */
  lemma LockoutBound(cfg: Config, start: Time, run: seq<Action>, u: Id, from: Time, k: nat)
    requires cfg.threshold >= 1
    ensures var m := Max(1, MostInFlight(cfg, start, run, u));
            CountIn(WrongTimes(cfg, start, run, u), from, from + k * cfg.lockoutMs) <= k * PerLock(cfg.threshold, m)
  {
    var m: nat := Max(1, MostInFlight(cfg, start, run, u));
    FailuresSpacedInRuns(cfg, start, run, u, m);
    BoundFromSpacing(WrongTimes(cfg, start, run, u), cfg.lockoutMs, PerLock(cfg.threshold, m), from, k);
  }

  // ----------------------------------------------------------------------------- logins one after another

  lemma OneAtMost(s: set<nat>, c: nat)
    requires |s| <= 1 && c in s
    ensures s - {c} == {}
  {
    assert |s - {c}| == |s| - 1;
  }

  lemma ModNext(n: nat, th: int)
    requires th >= 1
    ensures n % th + 1 < th ==> (n + 1) % th == n % th + 1
    ensures n % th + 1 >= th ==> (n + 1) % th == 0
  {
    var q, r := n / th, n % th;
    assert n + 1 == th * q + (r + 1);
    if r + 1 >= th {
      assert n + 1 == th * (q + 1) by {
        assert th * (q + 1) == th * q + th;
      }
      DivBy(n + 1, th, q + 1, 0);
    } else {
      DivBy(n + 1, th, q, r + 1);
    }
  }

  lemma OneFactorMore(th: int, a: int, b: int)
    requires th >= 1 && a < b
    ensures th * a + th <= th * b
  {
    assert th * (b - a - 1) >= 0;
    assert th * b == th * a + th + th * (b - a - 1);
  }

  lemma DivBy(n: int, th: int, q: int, r: int)
    requires th >= 1 && n == th * q + r && 0 <= r < th
    ensures n % th == r
  {
    if n / th < q {
      OneFactorMore(th, n / th, q);
    } else if q < n / th {
      OneFactorMore(th, q, n / th);
    }
  }

  /** The counter is the number of failures modulo the threshold, and a login in flight has read it. */
  ghost predicate Serial(cfg: Config, s: State, u: Id, w: seq<Time>)
    requires cfg.threshold >= 1
  {
    && (u !in s.t.users ==> w == [] && InFlight(s, u) == {})
    && (u in s.t.users ==> s.t.users[u].failedLogins == |w| % cfg.threshold)
    && (forall c | c in InFlight(s, u) ::
          u in s.t.users && s.calls[c].attempt.failures == s.t.users[u].failedLogins)
  }

  lemma SerialFinish(cfg: Config, s: State, a: Action, u: Id, w: seq<Time>)
    requires cfg.threshold >= 1 && Serial(cfg, s, u, w) && Finishes(s, a, u) && |InFlight(s, u)| <= 1
    ensures Serial(cfg, Step(cfg, s, a), u, if s.calls[a.call].attempt.matched then [] else w + [s.clock])
  {
    assert a.call in InFlight(s, u);
    FailureLeaves(cfg, s, a, u);
    LoginFrame(cfg, s, a.call, a.sid, a.token);
    ModNext(|w|, cfg.threshold);
    OneAtMost(InFlight(s, u), a.call);
  }

  lemma SerialStart(cfg: Config, s: State, a: Action, u: Id, w: seq<Time>)
    requires cfg.threshold >= 1 && Serial(cfg, s, u, w) && Starts(cfg, s, a, u)
    ensures Serial(cfg, Step(cfg, s, a), u, w)
  {
    var s' := Step(cfg, s, a);
    assert s' == Park(s, a.call, LoginCall(Begun(cfg, s.t, s.clock, a.email, a.password).attempt));
    assert InFlight(s', u) == InFlight(s, u) + {a.call};
  }

  lemma {:induction false} SerialInRuns(cfg: Config, start: Time, run: seq<Action>, u: Id)
    requires cfg.threshold >= 1 && MostInFlight(cfg, start, run, u) <= 1
    ensures Serial(cfg, At(cfg, start, run), u, WrongTimes(cfg, start, run, u))
  {
    if run == [] {
      assert InFlight(Initial(start), u) == {};
    } else {
      var n := |run| - 1;
      var before, a := run[..n], run[n];
      var s := At(cfg, start, before);
      SerialInRuns(cfg, start, before, u);
      FlightBounded(cfg, start, before, u);
      var w := WrongTimes(cfg, start, before, u);
      if Finishes(s, a, u) {
        SerialFinish(cfg, s, a, u, w);
      } else if Starts(cfg, s, a, u) {
        SerialStart(cfg, s, a, u, w);
      } else {
        OthersLeaveItUntouched(cfg, s, a, u);
        FewerInFlight(cfg, s, At(cfg, start, run), u);
      }
    }
  }

  /** Where logins on u never overlap, the stored counter is the number of failures modulo the threshold. */
  lemma CounterWithoutOverlap(cfg: Config, start: Time, run: seq<Action>, u: Id)
    requires cfg.threshold >= 1 && MostInFlight(cfg, start, run, u) <= 1
    requires u in At(cfg, start, run).t.users
    ensures At(cfg, start, run).t.users[u].failedLogins == |WrongTimes(cfg, start, run, u)| % cfg.threshold
  {
    SerialInRuns(cfg, start, run, u);
  }
}
