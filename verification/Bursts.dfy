/** Bursts of overlapping logins: how far the lockout policy can be driven, for every threshold. */
module Bursts {
  import opened Prelude
  import opened Schema
  import opened Auth
  import opened System
  import opened Invariants
  import opened Steps
  import opened Frames
  import opened Lifecycle
  import opened Lockout

  lemma OneMore(cfg: Config, start: Time, run: seq<Action>, longer: seq<Action>, a: Action, u: Id)
    requires longer == run + [a]
    ensures At(cfg, start, longer) == Step(cfg, At(cfg, start, run), a)
    ensures var s := At(cfg, start, run);
            var w := WrongTimes(cfg, start, run, u);
            WrongTimes(cfg, start, longer, u)
            == if !Finishes(s, a, u) then w else if s.calls[a.call].attempt.matched then [] else w + [s.clock]
  {
    assert longer[..|run|] == run;
  }

  function Begins(cs: seq<nat>, email: string, password: string): seq<Action> {
    if cs == [] then [] else Begins(cs[..|cs| - 1], email, password) + [LoginBegin(cs[|cs| - 1], email, password)]
  }

  function Ends(cs: seq<nat>, sid: Id, token: string): seq<Action> {
    if cs == [] then [] else Ends(cs[..|cs| - 1], sid, token) + [LoginFinish(cs[|cs| - 1], sid, token)]
  }

  lemma BeginParks(cfg: Config, s: State, c: nat, email: string, password: string)
    requires Idle(s, c) && Begun(cfg, s.t, s.clock, email, password).Comparing?
    ensures Step(cfg, s, LoginBegin(c, email, password))
         == s.(calls := s.calls[c := LoginCall(Begun(cfg, s.t, s.clock, email, password).attempt)])
  {
  }

  lemma FailureEnds(cfg: Config, s: State, c: nat, sid: Id, token: string, u: Id, a: Auth.Attempt)
    requires u in s.t.users && c in s.calls && s.calls[c] == LoginCall(a) && a.userId == u && !a.matched
    ensures var s' := Step(cfg, s, LoginFinish(c, sid, token));
            && s'.clock == s.clock && s'.calls == s.calls - {c}
            && s'.t == WithUser(s.t, u, AfterFailure(cfg, s.t.users[u], a.failures, s.clock))
  {
  }

  lemma CountsOneMore(w: seq<Time>, now: Time, lo: Time, hi: Time)
    requires lo <= now < hi
    ensures CountIn(w + [now], lo, hi) == CountIn(w, lo, hi) + 1
  {
    assert (w + [now])[..|w|] == w;
  }

  /** A login with this password reaches the comparison with the count f, and the password is wrong. */
  ghost predicate Open(cfg: Config, s: State, u: Id, email: string, password: string, f: nat) {
    Begun(cfg, s.t, s.clock, email, password) == Comparing(Auth.Attempt(u, f, false))
  }

  /** These calls are comparing, and hold what attempt `a` has read. */
  ghost predicate AllComparing(s: State, cs: seq<nat>, a: Auth.Attempt) {
    Distinct(cs) && forall c | c in cs :: c in s.calls && s.calls[c] == LoginCall(a)
  }

  lemma BeginsNext(run: seq<Action>, cs: seq<nat>, email: string, password: string)
    requires cs != []
    ensures run + Begins(cs, email, password)
         == run + Begins(cs[..|cs| - 1], email, password) + [LoginBegin(cs[|cs| - 1], email, password)]
  {
  }

  lemma EndsNext(run: seq<Action>, cs: seq<nat>, sid: Id, token: string)
    requires cs != []
    ensures run + Ends(cs, sid, token)
         == run + Ends(cs[..|cs| - 1], sid, token) + [LoginFinish(cs[|cs| - 1], sid, token)]
  {
  }

  /** Nothing stops any number of logins on one open account from comparing at the same time. */
  lemma {:induction false} LoginsCanOverlap(cfg: Config, start: Time, run: seq<Action>, longer: seq<Action>, u: Id,
                                            email: string, password: string, cs: seq<nat>)
    requires var s := At(cfg, start, run);
             AllIdle(s, cs) && Begun(cfg, s.t, s.clock, email, password).Comparing?
    requires longer == run + Begins(cs, email, password)
    ensures var s, s' := At(cfg, start, run), At(cfg, start, longer);
            && s'.t == s.t && s'.clock == s.clock && s'.calls.Keys == s.calls.Keys + Elements(cs)
            && (forall c | c in s.calls :: s'.calls[c] == s.calls[c])
            && AllComparing(s', cs, Begun(cfg, s.t, s.clock, email, password).attempt)
            && WrongTimes(cfg, start, longer, u) == WrongTimes(cfg, start, run, u)
    decreases |cs|
  {
    if cs == [] {
      assert longer == run;
    } else {
      var c, before := cs[|cs| - 1], cs[..|cs| - 1];
      var mid := run + Begins(before, email, password);
      LastIsNew(cs);
      LoginsCanOverlap(cfg, start, run, mid, u, email, password, before);
      BeginsNext(run, cs, email, password);
      OneMore(cfg, start, mid, longer, LoginBegin(c, email, password), u);
      BeginParks(cfg, At(cfg, start, mid), c, email, password);
    }
  }

  /** What n failures with the count that attempt `a` has read do to the row. */
  function RowAfter(cfg: Config, row: User, a: Auth.Attempt, now: Time, n: nat): User {
    if n == 0 then row else AfterFailure(cfg, RowAfter(cfg, row, a, now, n - 1), a.failures, now)
  }

  lemma {:induction false} CounterOnly(cfg: Config, row: User, a: Auth.Attempt, now: Time, n: nat)
    requires !LocksBy(cfg, a)
    ensures RowAfter(cfg, row, a, now, n) == row.(failedLogins := row.failedLogins + n)
  {
    if n > 0 {
      CounterOnly(cfg, row, a, now, n - 1);
    }
  }

  lemma {:induction false} LockOnly(cfg: Config, row: User, a: Auth.Attempt, now: Time, n: nat)
    requires LocksBy(cfg, a) && n >= 1
    ensures RowAfter(cfg, row, a, now, n) == row.(failedLogins := 0, lockedUntil := Some(now + cfg.lockoutMs))
  {
    if n > 1 {
      LockOnly(cfg, row, a, now, n - 1);
    }
  }

  /** How many of u's wrong-password comparisons lie in the interval. */
  ghost function WrongIn(cfg: Config, start: Time, run: seq<Action>, u: Id, lo: Time, hi: Time): nat {
    CountIn(WrongTimes(cfg, start, run, u), lo, hi)
  }

  /** The logins have failed, and nothing else has happened. */
  ghost predicate AllFailed(cfg: Config, s: State, s': State, u: Id, a: Auth.Attempt, cs: seq<nat>)
    requires u in s.t.users
  {
    && s'.clock == s.clock && s'.calls == s.calls - Elements(cs)
    && s'.t == WithUser(s.t, u, RowAfter(cfg, s.t.users[u], a, s.clock, |cs|))
  }

  lemma FailureNext(cfg: Config, start: Time, run: seq<Action>, longer: seq<Action>, u: Id, a: Auth.Attempt, c: nat,
                    sid: Id, token: string, lo: Time, hi: Time)
    requires a.userId == u && !a.matched && longer == run + [LoginFinish(c, sid, token)]
    requires var s := At(cfg, start, run);
             u in s.t.users && lo <= s.clock < hi && c in s.calls && s.calls[c] == LoginCall(a)
    ensures var s, s' := At(cfg, start, run), At(cfg, start, longer);
            && s'.clock == s.clock && s'.calls == s.calls - {c}
            && s'.t == WithUser(s.t, u, AfterFailure(cfg, s.t.users[u], a.failures, s.clock))
            && WrongIn(cfg, start, longer, u, lo, hi) == WrongIn(cfg, start, run, u, lo, hi) + 1
  {
    OneMore(cfg, start, run, longer, LoginFinish(c, sid, token), u);
    FailureEnds(cfg, At(cfg, start, run), c, sid, token, u, a);
    CountsOneMore(WrongTimes(cfg, start, run, u), At(cfg, start, run).clock, lo, hi);
  }

  lemma LastStillCompares(cfg: Config, s: State, s': State, u: Id, a: Auth.Attempt, cs: seq<nat>)
    requires u in s.t.users && cs != [] && AllComparing(s, cs, a) && AllFailed(cfg, s, s', u, a, cs[..|cs| - 1])
    ensures var c := cs[|cs| - 1]; c in s'.calls && s'.calls[c] == LoginCall(a) && u in s'.t.users
  {
    LastIsNew(cs);
  }

  lemma LastFails(cfg: Config, s: State, s1: State, s2: State, u: Id, a: Auth.Attempt, cs: seq<nat>)
    requires u in s.t.users && cs != [] && Distinct(cs) && AllFailed(cfg, s, s1, u, a, cs[..|cs| - 1])
    requires s2.clock == s1.clock && s2.calls == s1.calls - {cs[|cs| - 1]}
    requires s2.t == WithUser(s1.t, u, AfterFailure(cfg, s1.t.users[u], a.failures, s1.clock))
    ensures AllFailed(cfg, s, s2, u, a, cs)
  {
    DropOneMore(s.calls, cs);
  }

  /** Logins that all hold a wrong password each add one comparison, however many there are: no lock stops them. */
  lemma {:induction false} AllOfThemCount(cfg: Config, start: Time, run: seq<Action>, longer: seq<Action>, u: Id,
                                          a: Auth.Attempt, cs: seq<nat>, sid: Id, token: string, lo: Time, hi: Time)
    requires a.userId == u && !a.matched && longer == run + Ends(cs, sid, token)
    requires var s := At(cfg, start, run); u in s.t.users && lo <= s.clock < hi && AllComparing(s, cs, a)
    ensures AllFailed(cfg, At(cfg, start, run), At(cfg, start, longer), u, a, cs)
    ensures WrongIn(cfg, start, longer, u, lo, hi) == WrongIn(cfg, start, run, u, lo, hi) + |cs|
    decreases |cs|
  {
    var s := At(cfg, start, run);
    if cs == [] {
      assert longer == run;
      assert s.calls - Elements(cs) == s.calls;
    } else {
      var c, before := cs[|cs| - 1], cs[..|cs| - 1];
      var mid := run + Ends(before, sid, token);
      LastIsNew(cs);
      EndsNext(run, cs, sid, token);
      AllOfThemCount(cfg, start, run, mid, u, a, before, sid, token, lo, hi);
      LastStillCompares(cfg, s, At(cfg, start, mid), u, a, cs);
      FailureNext(cfg, start, mid, longer, u, a, c, sid, token, lo, hi);
      LastFails(cfg, s, At(cfg, start, mid), At(cfg, start, longer), u, a, cs);
    }
  }

  /** A round of overlapping logins: all begin, then all fail, at one moment. */
  function Round(cs: seq<nat>, email: string, password: string, sid: Id, token: string): seq<Action> {
    Begins(cs, email, password) + Ends(cs, sid, token)
  }

  lemma RoundHalves(run: seq<Action>, cs: seq<nat>, email: string, password: string, sid: Id, token: string)
    ensures run + Round(cs, email, password, sid, token) == run + Begins(cs, email, password) + Ends(cs, sid, token)
  {
  }

  /** After a round of n failures nothing has changed but the row, and the count is higher by n. */
  ghost predicate RoundDone(cfg: Config, s: State, s': State, u: Id, f: nat, n: nat)
    requires u in s.t.users
  {
    && s'.clock == s.clock && s'.calls == s.calls
    && s'.t == WithUser(s.t, u, RowAfter(cfg, s.t.users[u], Auth.Attempt(u, f, false), s.clock, n))
  }

  lemma RoundFails(cfg: Config, start: Time, run: seq<Action>, longer: seq<Action>, u: Id, email: string,
                   password: string, f: nat, cs: seq<nat>, sid: Id, token: string, lo: Time, hi: Time)
    requires var s := At(cfg, start, run);
             AllIdle(s, cs) && Open(cfg, s, u, email, password, f) && lo <= s.clock < hi
    requires longer == run + Round(cs, email, password, sid, token)
    ensures u in At(cfg, start, run).t.users && RoundDone(cfg, At(cfg, start, run), At(cfg, start, longer), u, f, |cs|)
    ensures WrongIn(cfg, start, longer, u, lo, hi) == WrongIn(cfg, start, run, u, lo, hi) + |cs|
  {
    var mid := run + Begins(cs, email, password);
    RoundHalves(run, cs, email, password, sid, token);
    LoginsCanOverlap(cfg, start, run, mid, u, email, password, cs);
    AllOfThemCount(cfg, start, mid, longer, u, Auth.Attempt(u, f, false), cs, sid, token, lo, hi);
    AddedThenDropped(At(cfg, start, run).calls, At(cfg, start, mid).calls, cs);
  }

  /**
   * With overlap the bound of k * threshold fails everywhere, for every threshold and every k: wherever a wrong
   * password would be compared at all, more than k * threshold overlapping logins with it are compared at one moment.
   */
  lemma OverlapBreaksTheBound(cfg: Config, start: Time, run: seq<Action>, u: Id, email: string, password: string,
                              f: nat, cs: seq<nat>, sid: Id, token: string, k: nat)
    requires k >= 1 && cfg.lockoutMs >= 1 && |cs| > k * cfg.threshold
    requires var s := At(cfg, start, run); AllIdle(s, cs) && Open(cfg, s, u, email, password, f)
    ensures var longer := run + Round(cs, email, password, sid, token);
            var now := At(cfg, start, run).clock;
            WrongIn(cfg, start, longer, u, now, now + k * cfg.lockoutMs) > k * cfg.threshold
  {
    assert k * cfg.lockoutMs >= 1;
    var now := At(cfg, start, run).clock;
    RoundFails(cfg, start, run, run + Round(cs, email, password, sid, token), u, email, password, f, cs, sid, token,
               now, now + k * cfg.lockoutMs);
  }

  // ------------------------------------------------------------------------------- logins in flight meanwhile

  lemma FlightGrows(cfg: Config, s: State, a: Action, u: Id)
    ensures InFlight(Step(cfg, s, a), u) <= InFlight(s, u) + (if a.LoginBegin? then {a.call} else {})
  {
    CallsEnter(cfg, s, a);
  }

  lemma FlightNext(cfg: Config, start: Time, run: seq<Action>, longer: seq<Action>, a: Action, u: Id)
    requires longer == run + [a]
    ensures |InFlight(At(cfg, start, longer), u)|
         <= |InFlight(At(cfg, start, run), u)| + (if a.LoginBegin? then 1 else 0)
    ensures MostInFlight(cfg, start, longer, u)
         == Max(MostInFlight(cfg, start, run, u), |InFlight(At(cfg, start, longer), u)|)
  {
    var s := At(cfg, start, run);
    assert longer[..|run|] == run;
    FlightGrows(cfg, s, a, u);
    SubsetIsNoLarger(InFlight(Step(cfg, s, a), u), InFlight(s, u) + (if a.LoginBegin? then {a.call} else {}));
  }

  lemma {:induction false} BeginsInFlight(cfg: Config, start: Time, run: seq<Action>, longer: seq<Action>, u: Id,
                                          email: string, password: string, cs: seq<nat>)
    requires longer == run + Begins(cs, email, password)
    ensures |InFlight(At(cfg, start, longer), u)| <= |InFlight(At(cfg, start, run), u)| + |cs|
    ensures MostInFlight(cfg, start, longer, u)
         <= Max(MostInFlight(cfg, start, run, u), |InFlight(At(cfg, start, run), u)| + |cs|)
    decreases |cs|
  {
    if cs == [] {
      assert longer == run;
    } else {
      var c, before := cs[|cs| - 1], cs[..|cs| - 1];
      var mid := run + Begins(before, email, password);
      BeginsNext(run, cs, email, password);
      BeginsInFlight(cfg, start, run, mid, u, email, password, before);
      FlightNext(cfg, start, mid, longer, LoginBegin(c, email, password), u);
    }
  }

  lemma {:induction false} EndsInFlight(cfg: Config, start: Time, run: seq<Action>, longer: seq<Action>, u: Id,
                                        cs: seq<nat>, sid: Id, token: string)
    requires longer == run + Ends(cs, sid, token)
    ensures |InFlight(At(cfg, start, longer), u)| <= |InFlight(At(cfg, start, run), u)|
    ensures MostInFlight(cfg, start, longer, u)
         <= Max(MostInFlight(cfg, start, run, u), |InFlight(At(cfg, start, run), u)|)
    decreases |cs|
  {
    if cs == [] {
      assert longer == run;
    } else {
      var c, before := cs[|cs| - 1], cs[..|cs| - 1];
      var mid := run + Ends(before, sid, token);
      EndsNext(run, cs, sid, token);
      EndsInFlight(cfg, start, run, mid, u, before, sid, token);
      FlightNext(cfg, start, mid, longer, LoginFinish(c, sid, token), u);
    }
  }

  lemma RoundInFlight(cfg: Config, start: Time, run: seq<Action>, longer: seq<Action>, u: Id, email: string,
                      password: string, cs: seq<nat>, sid: Id, token: string)
    requires longer == run + Round(cs, email, password, sid, token)
    ensures MostInFlight(cfg, start, longer, u)
         <= Max(MostInFlight(cfg, start, run, u), |InFlight(At(cfg, start, run), u)| + |cs|)
  {
    var mid := run + Begins(cs, email, password);
    RoundHalves(run, cs, email, password, sid, token);
    BeginsInFlight(cfg, start, run, mid, u, email, password, cs);
    EndsInFlight(cfg, start, mid, longer, u, cs, sid, token);
  }

  /** No login on u is in flight, at most m ever were, and `count` wrong comparisons lie in the interval. */
  ghost predicate Quiescent(cfg: Config, start: Time, run: seq<Action>, u: Id, m: nat, lo: Time, hi: Time, count: nat) {
    && InFlight(At(cfg, start, run), u) == {} && MostInFlight(cfg, start, run, u) <= m
    && WrongIn(cfg, start, run, u, lo, hi) == count
  }

  /** A round of no more than m logins leaves none in flight and adds their number to the count. */
  lemma RoundCounts(cfg: Config, start: Time, run: seq<Action>, longer: seq<Action>, u: Id, email: string,
                    password: string, f: nat, cs: seq<nat>, sid: Id, token: string, m: nat, lo: Time, hi: Time,
                    count: nat)
    requires Quiescent(cfg, start, run, u, m, lo, hi, count) && |cs| <= m
    requires var s := At(cfg, start, run);
             AllIdle(s, cs) && Open(cfg, s, u, email, password, f) && lo <= s.clock < hi
    requires longer == run + Round(cs, email, password, sid, token)
    ensures Quiescent(cfg, start, longer, u, m, lo, hi, count + |cs|)
    ensures u in At(cfg, start, run).t.users && RoundDone(cfg, At(cfg, start, run), At(cfg, start, longer), u, f, |cs|)
  {
    RoundInFlight(cfg, start, run, longer, u, email, password, cs, sid, token);
    RoundFails(cfg, start, run, longer, u, email, password, f, cs, sid, token, lo, hi);
    assert InFlight(At(cfg, start, longer), u) == InFlight(At(cfg, start, run), u);
  }

  lemma OpenMeans(cfg: Config, s: State, u: Id, email: string, password: string, f: nat)
    requires Open(cfg, s, u, email, password, f)
    ensures u in s.t.users && s.t.users[u].email == email && s.t.users[u].status == Active
    ensures s.t.users[u].failedLogins == f && !LockedAt(s.t.users[u], s.clock)
    ensures !cfg.matches(password, s.t.users[u].passwordHash)
  {
  }

  lemma FoundByEmail(cfg: Config, s: State, u: Id, email: string)
    requires Inv(cfg, s) && u in s.t.users && s.t.users[u].email == email
    ensures UserByEmail(s.t, email) == Some(u)
  {
    assert PartOk(s.t, UsersPart);
  }

  /** A round of logins that does not lock leaves the account as open as it was, the counter higher by their number. */
  lemma StillOpen(cfg: Config, s: State, s': State, u: Id, email: string, password: string, f: nat, n: nat)
    requires Open(cfg, s, u, email, password, f) && u in s.t.users && RoundDone(cfg, s, s', u, f, n)
    requires f + 1 < cfg.threshold && Inv(cfg, s')
    ensures Open(cfg, s', u, email, password, f + n)
  {
    OpenMeans(cfg, s, u, email, password, f);
    CounterOnly(cfg, s.t.users[u], Auth.Attempt(u, f, false), s.clock, n);
    FoundByEmail(cfg, s', u, email);
  }

  /** The account has just been locked, and its password is not this one. */
  ghost predicate JustLocked(cfg: Config, s: State, u: Id, email: string, password: string) {
    && UserByEmail(s.t, email) == Some(u) && s.t.users[u].status == Active && s.t.users[u].failedLogins == 0
    && s.t.users[u].lockedUntil == Some(s.clock + cfg.lockoutMs)
    && !cfg.matches(password, s.t.users[u].passwordHash)
  }

  /** A round of logins that does lock. */
  lemma NowLocked(cfg: Config, s: State, s': State, u: Id, email: string, password: string, f: nat, n: nat)
    requires Open(cfg, s, u, email, password, f) && u in s.t.users && RoundDone(cfg, s, s', u, f, n)
    requires f + 1 >= cfg.threshold && n >= 1 && Inv(cfg, s')
    ensures JustLocked(cfg, s', u, email, password)
  {
    OpenMeans(cfg, s, u, email, password, f);
    LockOnly(cfg, s.t.users[u], Auth.Attempt(u, f, false), s.clock, n);
    FoundByEmail(cfg, s', u, email);
  }

  /** Once the lock has run out the account is open again, with a zero counter. */
  lemma OpensAgain(cfg: Config, s: State, u: Id, email: string, password: string)
    requires JustLocked(cfg, s, u, email, password) && cfg.lockoutMs >= 0
    ensures Open(cfg, Step(cfg, s, Advance(cfg.lockoutMs)), u, email, password, 0)
  {
  }

  // ------------------------------------------------------------------------------- the bound is reached

  /** n logins one after another. */
  function OneByOne(n: nat, c: nat, email: string, password: string, sid: Id, token: string): seq<Action> {
    if n == 0 then []
    else OneByOne(n - 1, c, email, password, sid, token) + Round([c], email, password, sid, token)
  }

  lemma OneByOneNext(run: seq<Action>, n: nat, c: nat, email: string, password: string, sid: Id, token: string)
    requires n >= 1
    ensures run + OneByOne(n, c, email, password, sid, token)
         == run + OneByOne(n - 1, c, email, password, sid, token) + Round([c], email, password, sid, token)
  {
  }

  lemma {:induction false} OneByOneCounts(cfg: Config, start: Time, run: seq<Action>, longer: seq<Action>, u: Id,
                                          email: string, password: string, n: nat, c: nat, sid: Id, token: string,
                                          m: nat, lo: Time, hi: Time, count: nat)
    requires Quiescent(cfg, start, run, u, m, lo, hi, count) && m >= 1 && n + 1 <= cfg.threshold
    requires var s := At(cfg, start, run);
             Idle(s, c) && Open(cfg, s, u, email, password, 0) && lo <= s.clock < hi
    requires longer == run + OneByOne(n, c, email, password, sid, token)
    ensures Quiescent(cfg, start, longer, u, m, lo, hi, count + n)
    ensures var s, s' := At(cfg, start, run), At(cfg, start, longer);
            s'.clock == s.clock && s'.calls == s.calls && Open(cfg, s', u, email, password, n)
    decreases n
  {
    if n == 0 {
      assert longer == run;
    } else {
      var mid := run + OneByOne(n - 1, c, email, password, sid, token);
      OneByOneNext(run, n, c, email, password, sid, token);
      OneByOneCounts(cfg, start, run, mid, u, email, password, n - 1, c, sid, token, m, lo, hi, count);
      RoundCounts(cfg, start, mid, longer, u, email, password, n - 1, [c], sid, token, m, lo, hi, count + n - 1);
      Reachable(cfg, start, longer);
      StillOpen(cfg, At(cfg, start, mid), At(cfg, start, longer), u, email, password, n - 1, 1);
    }
  }

  /** threshold - 2 logins one by one, then two rounds of as many as may be in flight at once. */
  function WorstCase(th: int, cs: seq<nat>, email: string, password: string, sid: Id, token: string): seq<Action>
    requires th >= 1 && cs != []
  {
    var round := Round(cs, email, password, sid, token);
    if th == 1 then round else OneByOne(th - 2, cs[0], email, password, sid, token) + round + round
  }

  lemma WorstCaseSplits(th: int, run: seq<Action>, cs: seq<nat>, email: string, password: string, sid: Id,
                        token: string)
    requires th >= 2 && cs != []
    ensures var round := Round(cs, email, password, sid, token);
            run + WorstCase(th, cs, email, password, sid, token)
            == run + OneByOne(th - 2, cs[0], email, password, sid, token) + round + round
  {
  }

  /** The account is open with a zero counter, and the call ids are free. */
  ghost predicate Ready(cfg: Config, s: State, u: Id, email: string, password: string, cs: seq<nat>) {
    AllIdle(s, cs) && Open(cfg, s, u, email, password, 0)
  }

  /** The clock and the waiting calls are as before, and the account has just been locked. */
  ghost predicate Driven(cfg: Config, s: State, s': State, u: Id, email: string, password: string) {
    s'.clock == s.clock && s'.calls == s.calls && JustLocked(cfg, s', u, email, password)
  }

  lemma LockingRound(cfg: Config, start: Time, run: seq<Action>, longer: seq<Action>, u: Id, email: string,
                     password: string, f: nat, cs: seq<nat>, sid: Id, token: string, lo: Time, hi: Time, count: nat)
    requires Quiescent(cfg, start, run, u, |cs|, lo, hi, count) && cs != [] && f + 1 >= cfg.threshold
    requires var s := At(cfg, start, run);
             AllIdle(s, cs) && Open(cfg, s, u, email, password, f) && lo <= s.clock < hi
    requires longer == run + Round(cs, email, password, sid, token)
    ensures Quiescent(cfg, start, longer, u, |cs|, lo, hi, count + |cs|)
    ensures Driven(cfg, At(cfg, start, run), At(cfg, start, longer), u, email, password)
  {
    RoundCounts(cfg, start, run, longer, u, email, password, f, cs, sid, token, |cs|, lo, hi, count);
    Reachable(cfg, start, longer);
    NowLocked(cfg, At(cfg, start, run), At(cfg, start, longer), u, email, password, f, |cs|);
  }

  lemma TwoRounds(cfg: Config, start: Time, r1: seq<Action>, r2: seq<Action>, r3: seq<Action>, u: Id, email: string,
                  password: string, f: nat, cs: seq<nat>, sid: Id, token: string, lo: Time, hi: Time, count: nat)
    requires Quiescent(cfg, start, r1, u, |cs|, lo, hi, count) && cs != [] && f + 2 == cfg.threshold
    requires var s := At(cfg, start, r1);
             AllIdle(s, cs) && Open(cfg, s, u, email, password, f) && lo <= s.clock < hi
    requires r2 == r1 + Round(cs, email, password, sid, token) && r3 == r2 + Round(cs, email, password, sid, token)
    ensures Quiescent(cfg, start, r3, u, |cs|, lo, hi, count + |cs| + |cs|)
    ensures Driven(cfg, At(cfg, start, r1), At(cfg, start, r3), u, email, password)
  {
    RoundCounts(cfg, start, r1, r2, u, email, password, f, cs, sid, token, |cs|, lo, hi, count);
    Reachable(cfg, start, r2);
    StillOpen(cfg, At(cfg, start, r1), At(cfg, start, r2), u, email, password, f, |cs|);
    LockingRound(cfg, start, r2, r3, u, email, password, f + |cs|, cs, sid, token, lo, hi, count + |cs|);
  }

  lemma StagesCount(cfg: Config, start: Time, run: seq<Action>, r1: seq<Action>, r2: seq<Action>, r3: seq<Action>,
                    u: Id, email: string, password: string, cs: seq<nat>, sid: Id, token: string, lo: Time, hi: Time,
                    count: nat)
    requires cfg.threshold >= 2 && cs != [] && Quiescent(cfg, start, run, u, |cs|, lo, hi, count)
    requires Ready(cfg, At(cfg, start, run), u, email, password, cs) && lo <= At(cfg, start, run).clock < hi
    requires r1 == run + OneByOne(cfg.threshold - 2, cs[0], email, password, sid, token)
    requires r2 == r1 + Round(cs, email, password, sid, token) && r3 == r2 + Round(cs, email, password, sid, token)
    ensures Quiescent(cfg, start, r3, u, |cs|, lo, hi, count + PerLock(cfg.threshold, |cs|))
    ensures Driven(cfg, At(cfg, start, run), At(cfg, start, r3), u, email, password)
  {
    var n := cfg.threshold - 2;
    OneByOneCounts(cfg, start, run, r1, u, email, password, n, cs[0], sid, token, |cs|, lo, hi, count);
    TwoRounds(cfg, start, r1, r2, r3, u, email, password, n, cs, sid, token, lo, hi, count + n);
  }

  /** One lock duration driven as far as it goes. */
  lemma WorstCaseCounts(cfg: Config, start: Time, run: seq<Action>, longer: seq<Action>, u: Id, email: string,
                        password: string, cs: seq<nat>, sid: Id, token: string, lo: Time, hi: Time, count: nat)
    requires cfg.threshold >= 1 && cs != [] && Quiescent(cfg, start, run, u, |cs|, lo, hi, count)
    requires Ready(cfg, At(cfg, start, run), u, email, password, cs) && lo <= At(cfg, start, run).clock < hi
    requires longer == run + WorstCase(cfg.threshold, cs, email, password, sid, token)
    ensures Quiescent(cfg, start, longer, u, |cs|, lo, hi, count + PerLock(cfg.threshold, |cs|))
    ensures Driven(cfg, At(cfg, start, run), At(cfg, start, longer), u, email, password)
  {
    if cfg.threshold == 1 {
      LockingRound(cfg, start, run, longer, u, email, password, 0, cs, sid, token, lo, hi, count);
    } else {
      var r1 := run + OneByOne(cfg.threshold - 2, cs[0], email, password, sid, token);
      var r2 := r1 + Round(cs, email, password, sid, token);
      WorstCaseSplits(cfg.threshold, run, cs, email, password, sid, token);
      StagesCount(cfg, start, run, r1, r2, longer, u, email, password, cs, sid, token, lo, hi, count);
    }
  }

  /** The worst case, and again each time the lock has run out. */
  function WorstCases(th: int, wait: nat, k: nat, cs: seq<nat>, email: string, password: string, sid: Id,
                      token: string): seq<Action>
    requires th >= 1 && cs != [] && k >= 1
  {
    var once := WorstCase(th, cs, email, password, sid, token);
    if k == 1 then once else WorstCases(th, wait, k - 1, cs, email, password, sid, token) + [Advance(wait)] + once
  }

  lemma WorstCasesNext(th: int, wait: nat, k: nat, run: seq<Action>, cs: seq<nat>, email: string, password: string,
                       sid: Id, token: string)
    requires th >= 1 && cs != [] && k >= 2
    ensures run + WorstCases(th, wait, k, cs, email, password, sid, token)
         == run + WorstCases(th, wait, k - 1, cs, email, password, sid, token) + [Advance(wait)]
            + WorstCase(th, cs, email, password, sid, token)
  {
  }

  /** Waiting for the lock to run out. */
  lemma LockRunsOut(cfg: Config, start: Time, run: seq<Action>, longer: seq<Action>, u: Id, email: string,
                    password: string, cs: seq<nat>, lo: Time, hi: Time, count: nat)
    requires cfg.lockoutMs >= 0 && longer == run + [Advance(cfg.lockoutMs)]
    requires Quiescent(cfg, start, run, u, |cs|, lo, hi, count) && AllIdle(At(cfg, start, run), cs)
    requires JustLocked(cfg, At(cfg, start, run), u, email, password)
    ensures Quiescent(cfg, start, longer, u, |cs|, lo, hi, count)
    ensures var s, s' := At(cfg, start, run), At(cfg, start, longer);
            s'.clock == s.clock + cfg.lockoutMs && s'.calls == s.calls && Ready(cfg, s', u, email, password, cs)
  {
    var a := Advance(cfg.lockoutMs);
    OneMore(cfg, start, run, longer, a, u);
    FlightNext(cfg, start, run, longer, a, u);
    OpensAgain(cfg, At(cfg, start, run), u, email, password);
    assert InFlight(At(cfg, start, longer), u) == InFlight(At(cfg, start, run), u);
  }

  /** What k worst cases, a lock duration apart, add up to; `span` is the time from the first to the last of them. */
  lemma {:induction false} WorstCasesCount(cfg: Config, start: Time, run: seq<Action>, longer: seq<Action>, u: Id,
                                           email: string, password: string, cs: seq<nat>, sid: Id, token: string,
                                           k: nat, span: int, total: int, lo: Time, hi: Time, count: nat)
    requires cfg.threshold >= 1 && cfg.lockoutMs >= 0 && cs != [] && k >= 1
    requires span == Sum(k - 1, cfg.lockoutMs) && total == Sum(k, PerLock(cfg.threshold, |cs|))
    requires Quiescent(cfg, start, run, u, |cs|, lo, hi, count)
    requires Ready(cfg, At(cfg, start, run), u, email, password, cs)
    requires lo <= At(cfg, start, run).clock && At(cfg, start, run).clock + span < hi
    requires longer == run + WorstCases(cfg.threshold, cfg.lockoutMs, k, cs, email, password, sid, token)
    ensures total >= 0 && Quiescent(cfg, start, longer, u, |cs|, lo, hi, count + total)
    ensures span >= 0 && SoonAfter(cfg, At(cfg, start, run), At(cfg, start, longer), u, email, password, span)
    decreases k
  {
    if k == 1 {
      WorstCaseCounts(cfg, start, run, longer, u, email, password, cs, sid, token, lo, hi, count);
      assert Sum(0, cfg.lockoutMs) == 0 && Sum(1, PerLock(cfg.threshold, |cs|)) == PerLock(cfg.threshold, |cs|);
    } else {
      var earlier := WorstCases(cfg.threshold, cfg.lockoutMs, k - 1, cs, email, password, sid, token);
      WorstCasesNext(cfg.threshold, cfg.lockoutMs, k, run, cs, email, password, sid, token);
      WorstCasesCount(cfg, start, run, run + earlier, u, email, password, cs, sid, token, k - 1,
                      span - cfg.lockoutMs, total - PerLock(cfg.threshold, |cs|), lo, hi, count);
      OnceMore(cfg, start, run, run + earlier, run + earlier + [Advance(cfg.lockoutMs)], longer, u, email, password,
               cs, sid, token, span, lo, hi, count + (total - PerLock(cfg.threshold, |cs|)));
    }
  }

  /** `span` later the waiting calls are as before, and the account has just been locked. */
  ghost predicate SoonAfter(cfg: Config, s: State, s': State, u: Id, email: string, password: string, span: nat) {
    s'.clock == s.clock + span && s'.calls == s.calls && JustLocked(cfg, s', u, email, password)
  }

  lemma OnceMore(cfg: Config, start: Time, run: seq<Action>, r1: seq<Action>, r2: seq<Action>, r3: seq<Action>, u: Id,
                 email: string, password: string, cs: seq<nat>, sid: Id, token: string, span: nat, lo: Time, hi: Time,
                 count: nat)
    requires cfg.threshold >= 1 && 0 <= cfg.lockoutMs <= span && cs != []
    requires SoonAfter(cfg, At(cfg, start, run), At(cfg, start, r1), u, email, password, span - cfg.lockoutMs)
    requires Quiescent(cfg, start, r1, u, |cs|, lo, hi, count) && AllIdle(At(cfg, start, run), cs)
    requires lo <= At(cfg, start, run).clock && At(cfg, start, run).clock + span < hi
    requires r2 == r1 + [Advance(cfg.lockoutMs)]
    requires r3 == r2 + WorstCase(cfg.threshold, cs, email, password, sid, token)
    ensures Quiescent(cfg, start, r3, u, |cs|, lo, hi, count + PerLock(cfg.threshold, |cs|))
    ensures SoonAfter(cfg, At(cfg, start, run), At(cfg, start, r3), u, email, password, span)
  {
    LockRunsOut(cfg, start, r1, r2, u, email, password, cs, lo, hi, count);
    WorstCaseCounts(cfg, start, r2, r3, u, email, password, cs, sid, token, lo, hi, count);
  }

  lemma PerLockGrows(th: int, m: nat, n: nat, k: nat)
    requires th >= 1 && 1 <= m <= n
    ensures k * PerLock(th, m) <= k * PerLock(th, n)
  {
    assert k * (PerLock(th, n) - PerLock(th, m)) >= 0;
  }

  lemma NoMoreThan(cfg: Config, start: Time, run: seq<Action>, u: Id, m: nat, from: Time, k: nat, span: int, total: int,
                   count: nat)
    requires cfg.threshold >= 1 && m >= 1 && Quiescent(cfg, start, run, u, m, from, from + span, count)
    requires span == k * cfg.lockoutMs && total == k * PerLock(cfg.threshold, m)
    ensures count <= total
  {
    LockoutBound(cfg, start, run, u, from, k);
    PerLockGrows(cfg.threshold, Max(1, MostInFlight(cfg, start, run, u)), m, k);
  }

  lemma AtLeastThat(cfg: Config, start: Time, run: seq<Action>, longer: seq<Action>, u: Id, email: string,
                    password: string, cs: seq<nat>, sid: Id, token: string, k: nat, span: int, total: int, lo: Time,
                    hi: Time, count: nat)
    requires cfg.threshold >= 1 && cfg.lockoutMs >= 0 && cs != [] && k >= 1
    requires span == Sum(k - 1, cfg.lockoutMs) && total == Sum(k, PerLock(cfg.threshold, |cs|))
    requires Quiescent(cfg, start, run, u, |cs|, lo, hi, count)
    requires Ready(cfg, At(cfg, start, run), u, email, password, cs)
    requires lo <= At(cfg, start, run).clock && At(cfg, start, run).clock + span < hi
    requires longer == run + WorstCases(cfg.threshold, cfg.lockoutMs, k, cs, email, password, sid, token)
    ensures total >= 0 && Quiescent(cfg, start, longer, u, |cs|, lo, hi, count + total)
  {
    WorstCasesCount(cfg, start, run, longer, u, email, password, cs, sid, token, k, span, total, lo, hi, count);
  }

  /**
   * The lockout bound is sharp for every k: on an account with a zero counter and no login in flight, where no more
   * than m ever were, some continuation with still no more than m puts k * PerLock(threshold, m) wrong-password
   * comparisons into k lock durations.
   */
  lemma LockoutBoundIsReached(cfg: Config, start: Time, run: seq<Action>, longer: seq<Action>, u: Id, email: string,
                              password: string, cs: seq<nat>, sid: Id, token: string, k: nat, now: Time, span: int,
                              before: nat)
    requires cfg.threshold >= 1 && cfg.lockoutMs >= 1 && cs != [] && k >= 1 && span == k * cfg.lockoutMs
    requires now == At(cfg, start, run).clock && Quiescent(cfg, start, run, u, |cs|, now, now + span, before)
    requires Ready(cfg, At(cfg, start, run), u, email, password, cs)
    requires longer == run + WorstCases(cfg.threshold, cfg.lockoutMs, k, cs, email, password, sid, token)
    ensures k * PerLock(cfg.threshold, |cs|) >= 0
    ensures Quiescent(cfg, start, longer, u, |cs|, now, now + span, k * PerLock(cfg.threshold, |cs|))
  {
    var total := k * PerLock(cfg.threshold, |cs|);
    SumIsProduct(k, cfg.lockoutMs);
    SumIsProduct(k, PerLock(cfg.threshold, |cs|));
    AtLeastThat(cfg, start, run, longer, u, email, password, cs, sid, token, k, Sum(k - 1, cfg.lockoutMs), total, now,
                now + span, before);
    NoMoreThan(cfg, start, longer, u, |cs|, now, k, span, total, before + total);
  }
}
