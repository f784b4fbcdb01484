/** Whole-run theorems about deletion, status, write-once facts, recovery, names and the profile count. */
module Lifecycle {
  import opened Prelude
  import opened Schema
  import opened Sessions
  import opened Auth
  import opened Otps
  import opened Deletion
  import PasswordRecovery
  import opened Accounts
  import opened System
  import opened Invariants
  import opened Steps
  import opened Frames

  /** The state after `run` from an empty service started at `start`. */
  ghost function At(cfg: Config, start: Time, run: seq<Action>): State {
    After(cfg, Initial(start), run)
  }

  /** A longer run extends a shorter one: good states on both ends, nothing undone in between. */
  lemma Later(cfg: Config, start: Time, run: seq<Action>, more: seq<Action>)
    ensures Inv(cfg, At(cfg, start, run)) && Inv(cfg, At(cfg, start, run + more))
    ensures Evolves(At(cfg, start, run).t, At(cfg, start, run + more).t)
    ensures At(cfg, start, run).clock <= At(cfg, start, run + more).clock
    ensures At(cfg, start, run + more) == After(cfg, At(cfg, start, run), more)
  {
    Reachable(cfg, start, run);
    AfterConcat(cfg, Initial(start), run, more);
    RunGood(cfg, At(cfg, start, run), more);
  }

  // ------------------------------------------------------------------------------------------ deletion is final

  /** Nothing in this state lets anyone act as u: no session validates, no login gets as far as the comparison. */
  ghost predicate ShutOut(cfg: Config, s: State, u: Id) {
    && (forall token :: Validated(cfg, s.t, s.clock, token).1 != Valid(u))
    && (forall email, password | UserByEmail(s.t, email) == Some(u) ::
          !Begun(cfg, s.t, s.clock, email, password).Comparing?)
    && !Eligible(s.t, u)
  }

  lemma DeletedStays(cfg: Config, start: Time, run: seq<Action>, more: seq<Action>, u: Id)
    requires u in At(cfg, start, run).t.users && At(cfg, start, run).t.users[u].status == Deleted
    ensures var users := At(cfg, start, run + more).t.users; u in users && users[u].status == Deleted
  {
    Later(cfg, start, run, more);
    assert TableEvolves(At(cfg, start, run).t, At(cfg, start, run + more).t, UserTable);
  }

  /** Deletion is final under every interleaving, whatever calls were waiting when it committed. */
  lemma DeletionIsFinal(cfg: Config, start: Time, run: seq<Action>, more: seq<Action>, u: Id)
    requires u in At(cfg, start, run).t.users && At(cfg, start, run).t.users[u].status == Deleted
    ensures var s := At(cfg, start, run + more);
            && u in s.t.users && s.t.users[u].status == Deleted
            && s.t.users[u].deletedAt == At(cfg, start, run).t.users[u].deletedAt
            && s.t.users[u].email == At(cfg, start, run).t.users[u].email
            && ShutOut(cfg, s, u)
  {
    Later(cfg, start, run, more);
    var s := At(cfg, start, run + more);
    assert TableEvolves(At(cfg, start, run).t, s.t, UserTable);
    assert Holds(cfg, At(cfg, start, run), UsersFact);
    assert s.t.users[u].status == Deleted;
  }

  /** The commit itself ends every session of the user that was live, and leaves none to count. */
  lemma DeletionEndsSessions(cfg: Config, t: Tables, now: Time, u: Id, code: string, noticeId: Id, fault: int)
    requires ConfirmedDeletion(cfg, t, now, u, code, noticeId, fault).1.Finished?
    ensures var t' := ConfirmedDeletion(cfg, t, now, u, code, noticeId, fault).0;
            && (forall at :: LiveSessions(t', u, at) == {})
            && t'.users[u].status == Deleted && t'.users[u].deletedAt == Some(now)
            && RequestOf(t, u).Some? && t'.requests[RequestOf(t, u).value].status == Confirmed
            && noticeId in t'.notices && t'.notices[noticeId].userId == u
            && t'.notices[noticeId].recipient == t.users[u].email && t'.notices[noticeId].delivery == Queued
            && (forall v | v in t.users && v != u :: t'.users[v] == t.users[v])
            && (forall i | i in t.sessions && t.sessions[i].userId != u :: t'.sessions[i] == t.sessions[i])
  {
  }

  // --------------------------------------------------------------------------------- deletions and their notices

  ghost function RequestsOf(t: Tables, u: Id, status: RequestStatus): set<Id> {
    set r | r in t.requests && t.requests[r].userId == u && t.requests[r].status == status
  }

  ghost function NoticesOf(t: Tables, u: Id): set<Id> {
    set n | n in t.notices && t.notices[n].userId == u
  }

  lemma AtMostOne(s: set<Id>)
    requires forall a, b | a in s && b in s :: a == b
    ensures |s| <= 1
  {
    if a :| a in s {
      assert s == {a};
    }
  }

  /** Requests and notices of one account, in numbers. */
  ghost predicate NoticesMatch(s: State, u: Id)
    requires u in s.t.users
  {
    var gone := if s.t.users[u].status == Deleted then 1 else 0;
    && |RequestsOf(s.t, u, Waiting)| <= 1 - gone
    && |RequestsOf(s.t, u, Confirmed)| == gone
    && |NoticesOf(s.t, u)| == gone
    && (forall n | n in NoticesOf(s.t, u) ::
          u in s.past.registered && s.t.notices[n].recipient == s.past.registered[u])
  }

  lemma NoticesMatchOnceDeleted(cfg: Config, s: State, u: Id)
    requires Inv(cfg, s) && u in s.t.users && s.t.users[u].status == Deleted
    ensures NoticesMatch(s, u)
  {
    assert Holds(cfg, s, UsersFact) && Holds(cfg, s, RequestsFact) && Holds(cfg, s, NoticesFact);
    var (r, n) := s.past.finished[u];
    assert RequestsOf(s.t, u, Waiting) == {};
    assert RequestsOf(s.t, u, Confirmed) == {r};
    assert NoticesOf(s.t, u) == {n};
  }

  lemma NoticesMatchUntilDeleted(cfg: Config, s: State, u: Id)
    requires Inv(cfg, s) && u in s.t.users && s.t.users[u].status != Deleted
    ensures NoticesMatch(s, u)
  {
    assert Holds(cfg, s, UsersFact) && Holds(cfg, s, RequestsFact) && Holds(cfg, s, NoticesFact);
    assert PartOk(s.t, RequestsPart);
    AtMostOne(RequestsOf(s.t, u, Waiting));
    assert RequestsOf(s.t, u, Confirmed) == {};
    assert NoticesOf(s.t, u) == {};
  }

  /** Deletions and notices match one to one, in every reachable state. */
  lemma DeletionsMatchNotices(cfg: Config, start: Time, run: seq<Action>, u: Id)
    requires u in At(cfg, start, run).t.users
    ensures NoticesMatch(At(cfg, start, run), u)
  {
    Reachable(cfg, start, run);
    if At(cfg, start, run).t.users[u].status == Deleted {
      NoticesMatchOnceDeleted(cfg, At(cfg, start, run), u);
    } else {
      NoticesMatchUntilDeleted(cfg, At(cfg, start, run), u);
    }
  }

  // ------------------------------------------------------------------------------ status and write-once facts

  /** No step of any service ever lowers an account's rank: pending, active, suspended, deleted. */
  lemma StatusOnlyMovesForward(cfg: Config, start: Time, run: seq<Action>, more: seq<Action>, u: Id)
    requires u in At(cfg, start, run).t.users
    ensures var s, s' := At(cfg, start, run), At(cfg, start, run + more);
            u in s'.t.users && s.t.users[u].status.Rank() <= s'.t.users[u].status.Rank()
  {
    Later(cfg, start, run, more);
    assert TableEvolves(At(cfg, start, run).t, At(cfg, start, run + more).t, UserTable);
  }

  /** What is stamped once is never stamped again. */
  lemma StampsAreWrittenOnce(cfg: Config, start: Time, run: seq<Action>, more: seq<Action>, x: Id)
    ensures var t, t' := At(cfg, start, run).t, At(cfg, start, run + more).t;
            && (x in t.sessions && t.sessions[x].invalidatedAt.Some? ==>
                  x in t'.sessions && t'.sessions[x] == t.sessions[x])
            && (x in t.otps && t.otps[x].invalidatedAt.Some? ==>
                  x in t'.otps && t'.otps[x].invalidatedAt == t.otps[x].invalidatedAt)
            && (x in t.requests && (t.requests[x].confirmedAt.Some? || t.requests[x].cancelledAt.Some?) ==>
                  x in t'.requests && t'.requests[x] == t.requests[x])
            && (x in t.users && t.users[x].deletedAt.Some? ==>
                  x in t'.users && t'.users[x].deletedAt == t.users[x].deletedAt)
  {
    Later(cfg, start, run, more);
    var s, s' := At(cfg, start, run), At(cfg, start, run + more);
    assert TableEvolves(s.t, s'.t, UserTable) && TableEvolves(s.t, s'.t, SessionTable);
    assert TableEvolves(s.t, s'.t, OtpTable) && TableEvolves(s.t, s'.t, RequestTable);
    assert Holds(cfg, s, SessionsFact) && Holds(cfg, s, RequestsFact);
  }

  /**
   * Logging out is idempotent across any run: once a token whose session exists has been presented for logout,
   * every later logout with it reports "already terminated" and writes nothing.
   */
  lemma SecondLogoutChangesNothing(cfg: Config, start: Time, run: seq<Action>, more: seq<Action>, token: string)
    requires SessionByHash(At(cfg, start, run).t, cfg.sha(token)).Some?
    ensures var s := At(cfg, start, run + [Logout(token)] + more);
            LoggedOut(cfg, s.t, s.clock, token) == (s.t, true)
  {
    var s := At(cfg, start, run);
    var first := At(cfg, start, run + [Logout(token)]);
    var last := At(cfg, start, run + [Logout(token)] + more);
    assert (run + [Logout(token)])[..|run|] == run;
    assert first == Step(cfg, s, Logout(token));
    Later(cfg, start, run, [Logout(token)]);
    Later(cfg, start, run + [Logout(token)], more);
    var i := SessionByHash(s.t, cfg.sha(token)).value;
    assert !Open(first.t, i, first.clock);
    assert TableEvolves(s.t, first.t, SessionTable) && TableEvolves(first.t, last.t, SessionTable);
    assert PartOk(last.t, SessionsPart);
    assert SessionByHash(last.t, cfg.sha(token)) == Some(i);
  }

  // ------------------------------------------------------------------------------------------- password reset

  lemma EndedSessionStaysEnded(cfg: Config, s: State, last: State, i: Id, token: string)
    requires Inv(cfg, last) && SessionsEvolve(s.t.sessions, last.t.sessions)
    requires i in s.t.sessions && s.t.sessions[i].invalidated && cfg.sha(token) == s.t.sessions[i].tokenHash
    ensures Validated(cfg, last.t, last.clock, token).1.Invalid?
  {
    assert PartOk(last.t, SessionsPart);
    assert SessionByHash(last.t, cfg.sha(token)) == Some(i);
  }

  /** Every session that existed when a reset committed is dead for good. */
  lemma ResetCutsOffThePast(cfg: Config, start: Time, run: seq<Action>, more: seq<Action>, call: nat, hash: string,
                            fault: int, i: Id, token: string)
    requires var s := At(cfg, start, run);
             && call in s.calls && s.calls[call].ResetCall? && !(0 <= fault < 3)
             && i in s.t.sessions && s.t.sessions[i].userId == s.calls[call].reset.userId
    requires cfg.sha(token) == At(cfg, start, run).t.sessions[i].tokenHash
    ensures var s := At(cfg, start, run + [ResetFinish(call, hash, fault)] + more);
            Validated(cfg, s.t, s.clock, token).1.Invalid?
  {
    var s, a := At(cfg, start, run), ResetFinish(call, hash, fault);
    var done, last := At(cfg, start, run + [a]), At(cfg, start, run + [a] + more);
    Next(cfg, start, run, a);
    Later(cfg, start, run, [a]);
    Later(cfg, start, run + [a], more);
    CommitTakesEffect(cfg, s, a, s.calls[call].reset.requestId);
    assert TableEvolves(s.t, done.t, SessionTable) && TableEvolves(done.t, last.t, SessionTable);
    EndedSessionStaysEnded(cfg, done, last, i, token);
  }

  lemma SpentTokenExpires(cfg: Config, s: State, last: State, q: Id, token: string, password: string)
    requires Inv(cfg, last) && RecoveriesEvolve(s.t.recoveries, last.t.recoveries)
    requires q in s.t.recoveries && s.t.recoveries[q].consumed && s.t.recoveries[q].token == token
    ensures PasswordRecovery.ResetBegun(cfg, last.t, last.clock, token, password) == PasswordRecovery.TokenExpired
  {
    assert PartOk(last.t, RecoveriesPart);
    assert RecoveryByToken(last.t, token) == Some(q);
  }

  /** A token whose reset has committed never passes the check again. */
  lemma ResetTokenIsSpent(cfg: Config, start: Time, run: seq<Action>, more: seq<Action>, call: nat, hash: string,
                          fault: int, token: string, password: string)
    requires var s := At(cfg, start, run);
             && call in s.calls && s.calls[call].ResetCall? && !(0 <= fault < 3)
             && s.calls[call].reset.requestId in s.t.recoveries
             && s.t.recoveries[s.calls[call].reset.requestId].token == token
    ensures var s := At(cfg, start, run + [ResetFinish(call, hash, fault)] + more);
            PasswordRecovery.ResetBegun(cfg, s.t, s.clock, token, password) == PasswordRecovery.TokenExpired
  {
    var s, a := At(cfg, start, run), ResetFinish(call, hash, fault);
    var done, last := At(cfg, start, run + [a]), At(cfg, start, run + [a] + more);
    var q := s.calls[call].reset.requestId;
    Next(cfg, start, run, a);
    Later(cfg, start, run, [a]);
    Later(cfg, start, run + [a], more);
    CommitTakesEffect(cfg, s, a, q);
    assert TableEvolves(s.t, done.t, RecoveryTable) && TableEvolves(done.t, last.t, RecoveryTable);
    SpentTokenExpires(cfg, done, last, q, token, password);
  }

  /** Call e has passed the check for recovery request q and is hashing. */
  predicate Resetting(s: State, e: nat, q: Id) {
    e in s.calls && s.calls[e].ResetCall? && s.calls[e].reset.requestId == q
  }

  /** Nothing stops two resets of one token from hashing at the same time. */
  lemma ResetsCanOverlap(cfg: Config, start: Time, run: seq<Action>, c: nat, e: nat, token: string, p: string,
                         q: string)
    requires var s := At(cfg, start, run);
             && c != e && Idle(s, c) && Idle(s, e)
             && PasswordRecovery.ResetBegun(cfg, s.t, s.clock, token, p).Hashing? && cfg.policy(q)
    ensures var s := At(cfg, start, run);
            var s' := At(cfg, start, run + [ResetBegin(c, token, p)] + [ResetBegin(e, token, q)]);
            && s'.t == s.t && RecoveryByToken(s.t, token).Some?
            && Resetting(s', c, RecoveryByToken(s.t, token).value)
            && Resetting(s', e, RecoveryByToken(s.t, token).value)
  {
    var s, a, b := At(cfg, start, run), ResetBegin(c, token, p), ResetBegin(e, token, q);
    Next(cfg, start, run, a);
    Next(cfg, start, run + [a], b);
    BeginResetParks(cfg, s, c, token, p);
    BeginResetParks(cfg, Step(cfg, s, a), e, token, q);
  }

  lemma Next(cfg: Config, start: Time, run: seq<Action>, a: Action)
    ensures At(cfg, start, run + [a]) == Step(cfg, At(cfg, start, run), a)
  {
    assert (run + [a])[..|run|] == run;
  }

  lemma BeginResetParks(cfg: Config, s: State, c: nat, token: string, p: string)
    requires Idle(s, c) && PasswordRecovery.ResetBegun(cfg, s.t, s.clock, token, p).Hashing?
    ensures Step(cfg, s, ResetBegin(c, token, p))
         == Park(s, c, ResetCall(PasswordRecovery.ResetBegun(cfg, s.t, s.clock, token, p).attempt))
  {
  }

  lemma NoResetEnters(cfg: Config, s: State, a: Action, s': State, e: nat, q: Id)
    requires EntersOrStays(cfg, s, a, s')
    requires q in s.t.recoveries && s.t.recoveries[q].consumed && Resetting(s', e, q)
    ensures Resetting(s, e, q) && s'.calls[e] == s.calls[e]
  {
  }

  /** Once a token is consumed no further reset of it gets past the check. */
  lemma NoResetStartsLater(cfg: Config, s: State, a: Action, e: nat, q: Id)
    requires q in s.t.recoveries && s.t.recoveries[q].consumed && Resetting(Step(cfg, s, a), e, q)
    ensures Resetting(s, e, q) && Step(cfg, s, a).calls[e] == s.calls[e]
  {
    CallsEnter(cfg, s, a);
    NoResetEnters(cfg, s, a, Step(cfg, s, a), e, q);
  }

  lemma ConsumedStays(cfg: Config, start: Time, run: seq<Action>, more: seq<Action>, q: Id)
    requires var t := At(cfg, start, run).t; q in t.recoveries && t.recoveries[q].consumed
    ensures var t := At(cfg, start, run + more).t; q in t.recoveries && t.recoveries[q].consumed
  {
    Later(cfg, start, run, more);
    assert TableEvolves(At(cfg, start, run).t, At(cfg, start, run + more).t, RecoveryTable);
  }

  lemma {:induction false} LateResetsWereWaiting(cfg: Config, start: Time, run: seq<Action>, more: seq<Action>, e: nat,
                                                 q: Id)
    requires var t := At(cfg, start, run).t; q in t.recoveries && t.recoveries[q].consumed
    requires Resetting(At(cfg, start, run + more), e, q)
    ensures Resetting(At(cfg, start, run), e, q)
    ensures At(cfg, start, run + more).calls[e] == At(cfg, start, run).calls[e]
  {
    if more == [] {
      assert run + more == run;
    } else {
      var n := |more| - 1;
      assert (run + more)[..|run + more| - 1] == run + more[..n];
      ConsumedStays(cfg, start, run, more[..n], q);
      NoResetStartsLater(cfg, At(cfg, start, run + more[..n]), more[n], e, q);
      LateResetsWereWaiting(cfg, start, run, more[..n], e, q);
    }
  }

  /** The action commits a reset of recovery request q. */
  predicate CommitsReset(s: State, a: Action, q: Id) {
    a.ResetFinish? && Resetting(s, a.call, q) && !(0 <= a.fault < 3)
  }

  lemma CommitTakesEffect(cfg: Config, s: State, a: Action, q: Id)
    requires Inv(cfg, s) && CommitsReset(s, a, q)
    ensures var u, s' := s.calls[a.call].reset.userId, Step(cfg, s, a);
            && u in s'.t.users && s'.t.users[u].passwordHash == a.hash
            && q in s'.t.recoveries && s'.t.recoveries[q].consumed
            && s'.calls == s.calls - {a.call}
            && (forall i | i in s'.t.sessions && s'.t.sessions[i].userId == u :: s'.t.sessions[i].invalidated)
  {
    assert Holds(cfg, s, CallsFact);
    assert CallHolds(s.t, s.calls[a.call]);
  }

  /**
   * Exactly which resets of a token commit after a first one has, whatever happens in between: those that were past the
   * check when the first committed, are still waiting, and meet no fault. Each of them replaces the password again.
   */
  lemma SecondResetCommitsExactly(cfg: Config, start: Time, run: seq<Action>, first: Action, more: seq<Action>,
                                  second: Action, q: Id)
    requires CommitsReset(At(cfg, start, run), first, q) && second.ResetFinish?
    ensures var s, s' := At(cfg, start, run), At(cfg, start, run + [first] + more);
            CommitsReset(s', second, q) <==>
            && second.call != first.call && Resetting(s, second.call, q)
            && second.call in s'.calls && s'.calls[second.call] == s.calls[second.call]
            && !(0 <= second.fault < 3)
    ensures var s, s' := At(cfg, start, run), At(cfg, start, run + [first] + more);
            CommitsReset(s', second, q) ==>
            var u := s'.calls[second.call].reset.userId;
            var end := At(cfg, start, run + [first] + more + [second]);
            && u == s.calls[first.call].reset.userId
            && u in end.t.users && end.t.users[u].passwordHash == second.hash
  {
    var s, mid := At(cfg, start, run), At(cfg, start, run + [first]);
    var s' := At(cfg, start, run + [first] + more);
    Later(cfg, start, run + [first], more);
    Reachable(cfg, start, run);
    Next(cfg, start, run, first);
    CommitTakesEffect(cfg, s, first, q);
    if Resetting(s', second.call, q) {
      LateResetsWereWaiting(cfg, start, run + [first], more, second.call, q);
    }
    if CommitsReset(s', second, q) {
      Next(cfg, start, run + [first] + more, second);
      CommitTakesEffect(cfg, s', second, q);
      SameOwner(cfg, s, first.call, second.call, q);
    }
  }

  lemma SameOwner(cfg: Config, s: State, c: nat, e: nat, q: Id)
    requires Inv(cfg, s) && Resetting(s, c, q) && Resetting(s, e, q)
    ensures s.calls[c].reset.userId == s.calls[e].reset.userId
  {
    assert Holds(cfg, s, CallsFact);
    assert CallHolds(s.t, s.calls[c]) && CallHolds(s.t, s.calls[e]);
  }

  /** A call with a password the policy rejects goes no further than the check and leaves the whole state alone. */
  lemma RejectedPasswordWritesNothing(cfg: Config, s: State, call: nat, token: string, password: string)
    requires !cfg.policy(password)
    ensures Step(cfg, s, ResetBegin(call, token, password)) == s
  {
  }

  // ---------------------------------------------------------------------------------------------------- names

  /** Stored names are the normalised usernames and pairwise distinct, concurrent registrations included. */
  lemma UsernamesStayUnique(cfg: Config, start: Time, run: seq<Action>)
    requires TextOk(cfg)
    ensures var users := At(cfg, start, run).t.users;
            && (forall u | u in users :: users[u].normalised == Normalised(cfg, users[u].username))
            && (forall u, v | u in users && v in users && u != v ::
                  Normalised(cfg, users[u].username) != Normalised(cfg, users[v].username)
                  && users[u].email != users[v].email)
  {
    Reachable(cfg, start, run);
    var s := At(cfg, start, run);
    assert PartOk(s.t, UsersPart) && Holds(cfg, s, NamesFact);
  }

  /** A deletion frees the user's name, unless the name already had the anonymised form, and it can be taken at once. */
  lemma DeletionFreesTheName(cfg: Config, start: Time, run: seq<Action>, u: Id, code: string, noticeId: Id, fault: int,
                             id: Id, username: string, email: string, hash: string)
    requires var s := At(cfg, start, run);
             && ConfirmedDeletion(cfg, s.t, s.clock, u, code, noticeId, fault).1.Finished?
             && Normalised(cfg, username) == s.t.users[u].normalised
             && s.t.users[u].normalised != cfg.lower(AnonymousName(u))
    ensures var s := At(cfg, start, run);
            var t' := ConfirmedDeletion(cfg, s.t, s.clock, u, code, noticeId, fault).0;
            && !NameHeld(t', s.t.users[u].normalised)
            && (id !in t'.users && (forall v | v in t'.users :: t'.users[v].email != email) ==>
                  Registered(cfg, t', s.clock, id, username, email, hash).1)
  {
    Reachable(cfg, start, run);
    assert PartOk(At(cfg, start, run).t, UsersPart);
  }

  // -------------------------------------------------------------------------------------------- profile count

  /** The issued tokens that validate as u right now. */
  ghost function ValidTokens(cfg: Config, s: State, u: Id): set<string> {
    set i | i in s.past.issued && Validated(cfg, s.t, s.clock, s.past.issued[i]).1 == Valid(u) :: s.past.issued[i]
  }

  lemma IssuedTokenFindsItsSession(cfg: Config, s: State, i: Id)
    requires Inv(cfg, s) && i in s.t.sessions
    ensures i in s.past.issued && SessionByHash(s.t, cfg.sha(s.past.issued[i])) == Some(i)
  {
    assert Holds(cfg, s, SessionsFact) && PartOk(s.t, SessionsPart);
  }

  lemma TokensOfLiveSessions(cfg: Config, s: State, u: Id)
    requires Inv(cfg, s) && u in s.t.users && s.t.users[u].status == Active
    ensures s.past.issued.Keys == s.t.sessions.Keys
    ensures forall i | i in s.t.sessions ::
              i in LiveSessions(s.t, u, s.clock) <==> Validated(cfg, s.t, s.clock, s.past.issued[i]).1 == Valid(u)
    ensures forall i, j | i in s.t.sessions && j in s.t.sessions && i != j :: s.past.issued[i] != s.past.issued[j]
  {
    assert Holds(cfg, s, SessionsFact) && PartOk(s.t, SessionsPart);
    forall i | i in s.t.sessions
      ensures i in LiveSessions(s.t, u, s.clock) <==> Validated(cfg, s.t, s.clock, s.past.issued[i]).1 == Valid(u)
    {
      IssuedTokenFindsItsSession(cfg, s, i);
    }
  }

  lemma ActiveCountAgrees(cfg: Config, s: State, u: Id)
    requires Inv(cfg, s) && u in s.t.users && s.t.users[u].status == Active
    ensures |LiveSessions(s.t, u, s.clock)| == |ValidTokens(cfg, s, u)|
  {
    var live := LiveSessions(s.t, u, s.clock);
    TokensOfLiveSessions(cfg, s, u);
    BijectionKeepsSize(live, ValidTokens(cfg, s, u), map i | i in live :: s.past.issued[i]);
  }

  /** For an active user the profile's session count is the number of issued tokens that would validate now. */
  lemma ProfileCountAgrees(cfg: Config, start: Time, run: seq<Action>, u: Id)
    requires u in At(cfg, start, run).t.users && At(cfg, start, run).t.users[u].status == Active
    ensures var s := At(cfg, start, run); |LiveSessions(s.t, u, s.clock)| == |ValidTokens(cfg, s, u)|
  {
    Reachable(cfg, start, run);
    ActiveCountAgrees(cfg, At(cfg, start, run), u);
  }

  /** For any other user the two numbers agree exactly when no session row is left to count. */
  lemma ProfileCountOtherwise(cfg: Config, start: Time, run: seq<Action>, u: Id)
    requires u in At(cfg, start, run).t.users && At(cfg, start, run).t.users[u].status != Active
    ensures var s := At(cfg, start, run);
            |LiveSessions(s.t, u, s.clock)| == |ValidTokens(cfg, s, u)| <==> LiveSessions(s.t, u, s.clock) == {}
  {
  }
}
