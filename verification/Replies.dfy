/**
 * What each service answers, in terms of rows: for every reply, exactly when it is given. Together with the row-by-row
 * account of what is written this pins every branch of every service.
 */
module Replies {
  import opened Prelude
  import opened Schema
  import Sessions
  import Auth
  import Otps
  import Deletion
  import PasswordRecovery
  import Accounts
  import opened System
  import opened Invariants
  import opened Rows

  // --------------------------------------------------------------------------------------------------- passcodes

  predicate MaySubmit(s: State, u: Id) {
    u in s.t.users && (s.t.users[u].status == Pending || s.t.users[u].status == Active)
  }

  lemma GateReplies(cfg: Config, s: State, u: Id)
    ensures var r := Otps.Gated(s.t, u);
            && (r.UnknownUser? <==> u !in s.t.users)
            && (r.MayIssue? <==> MaySubmit(s, u)) && (r.MayIssue? ==> r.email == s.t.users[u].email)
            && (r.Forbidden? ==> u in s.t.users && r.status == s.t.users[u].status)
  {
  }

  /** Not found, expired, invalid, aborted, accepted: in this order, each exactly when it says. */
  lemma VerifyReplies(cfg: Config, s: State, u: Id, code: string, fault: int, o: Id)
    requires Inv(cfg, s)
    ensures var r := Otps.Verified(cfg, s.t, s.clock, u, code, fault).1;
            && (r.OtpNotFound? <==> !MaySubmit(s, u) || forall p :: !ActiveOtp(s.t, u, p))
            && (MaySubmit(s, u) && ActiveOtp(s.t, u, o) ==>
                  && (r.OtpExpired? <==> s.clock > s.t.otps[o].expiresAt)
                  && (r.OtpInvalid? <==>
                        s.clock <= s.t.otps[o].expiresAt && cfg.hmac(code) != s.t.otps[o].codeHash)
                  && (r.Aborted? <==> 0 <= fault < 2 && s.clock <= s.t.otps[o].expiresAt
                                      && cfg.hmac(code) == s.t.otps[o].codeHash)
                  && (r == Otps.Accepted(o) <==> AcceptsCode(cfg, s, VerifyOtp(u, code, fault), o)))
  {
    assert PartOk(s.t, OtpsPart);
    if OtpOf(s.t, u).Some? {
      assert ActiveOtp(s.t, u, OtpOf(s.t, u).value);
    }
  }

  // --------------------------------------------------------------------------------------------------- deletion

  lemma RequestReplies(cfg: Config, s: State, u: Id, code: string, id: Id)
    requires Inv(cfg, s)
    ensures var r := Deletion.DeletionRequested(cfg, s.t, s.clock, u, code, id).1;
            var active := u in s.t.users && s.t.users[u].status == Active;
            && (r.AccountNotActive? <==> !active)
            && (r.AlreadyPending? <==> active && exists q :: WaitingRequest(s.t, u, q))
            && (r.StoreFailed? <==> active && (forall q :: !WaitingRequest(s.t, u, q)) && id in s.t.requests)
            && (r == Deletion.Requested(id, s.clock + cfg.deletionTtlMs) <==>
                  AsksDeletion(s, RequestDeletion(u, code, id), id))
  {
    if RequestOf(s.t, u).Some? {
      assert WaitingRequest(s.t, u, RequestOf(s.t, u).value);
    }
    assert (forall q :: !WaitingRequest(s.t, u, q)) <==>
      forall q | q in s.t.requests && s.t.requests[q].userId == u :: s.t.requests[q].status != Waiting by {
      forall q | q in s.t.requests && s.t.requests[q].userId == u && s.t.requests[q].status == Waiting
        ensures WaitingRequest(s.t, u, q) {}
    }
  }

  /** No request, expired, invalid, aborted, finished: in this order, each exactly when it says. */
  lemma ConfirmReplies(cfg: Config, s: State, u: Id, code: string, noticeId: Id, fault: int, q: Id)
    requires Inv(cfg, s)
    ensures var r := Deletion.ConfirmedDeletion(cfg, s.t, s.clock, u, code, noticeId, fault).1;
            && (r.NoRequest? <==> forall p :: !WaitingRequest(s.t, u, p))
            && (WaitingRequest(s.t, u, q) ==>
                  && (r.CodeExpired? <==> s.clock > s.t.requests[q].expiresAt)
                  && (r.CodeInvalid? <==>
                        s.clock <= s.t.requests[q].expiresAt && cfg.hmac(code) != s.t.requests[q].codeHash)
                  && (r == Deletion.Finished(q) <==>
                        Confirms(cfg, s, ConfirmDeletion(u, code, noticeId, fault), u, q))
                  && (r.Aborted? <==> s.clock <= s.t.requests[q].expiresAt
                                      && cfg.hmac(code) == s.t.requests[q].codeHash
                                      && !Confirms(cfg, s, ConfirmDeletion(u, code, noticeId, fault), u, q)))
  {
    assert PartOk(s.t, RequestsPart);
    ConfirmFollows(cfg, s, u, code, noticeId, fault);
    if RequestOf(s.t, u).Some? {
      assert WaitingRequest(s.t, u, RequestOf(s.t, u).value);
    }
  }

  lemma CancelReplies(cfg: Config, s: State, u: Id)
    requires Inv(cfg, s)
    ensures Deletion.CancelledDeletion(s.t, s.clock, u).1 <==> exists q :: WaitingRequest(s.t, u, q)
  {
    CancelFollows(cfg, s, u);
  }

  // --------------------------------------------------------------------------------------------------- sessions

  ghost predicate HasToken(cfg: Config, s: State, i: Id, token: string) {
    i in s.t.sessions && s.t.sessions[i].tokenHash == cfg.sha(token)
  }

  /** Not found, expired, invalidated, account not active, valid: in this order, each exactly when it says. */
  lemma ValidateReplies(cfg: Config, s: State, token: string, i: Id)
    requires Inv(cfg, s)
    ensures var r := Sessions.Validated(cfg, s.t, s.clock, token).1;
            && (r == Sessions.Invalid(Sessions.NotFound) <==> forall j :: !HasToken(cfg, s, j, token))
            && (HasToken(cfg, s, i, token) ==>
                  var row, u := s.t.sessions[i], s.t.sessions[i].userId;
                  && u in s.t.users
                  && (r == Sessions.Invalid(Sessions.Expired) <==> s.clock >= row.expiresAt)
                  && (r == Sessions.Invalid(Sessions.Invalidated) <==> s.clock < row.expiresAt && row.invalidated)
                  && (r == Sessions.Invalid(Sessions.AccountSuspended) <==>
                        s.clock < row.expiresAt && !row.invalidated && s.t.users[u].status != Active)
                  && (r == Sessions.Valid(u) <==>
                        s.clock < row.expiresAt && !row.invalidated && s.t.users[u].status == Active))
  {
    assert PartOk(s.t, SessionsPart);
    if SessionByHash(s.t, cfg.sha(token)).Some? {
      assert HasToken(cfg, s, SessionByHash(s.t, cfg.sha(token)).value, token);
    }
    if HasToken(cfg, s, i, token) {
      FoundByHash(cfg, s, i, cfg.sha(token));
    }
  }

  /** "Already terminated" is answered exactly when the token has no live session. */
  lemma LogoutReplies(cfg: Config, s: State, token: string)
    requires Inv(cfg, s)
    ensures !Sessions.LoggedOut(cfg, s.t, s.clock, token).1 <==> exists i :: HasToken(cfg, s, i, token) && LiveAt(s, i)
  {
    LogoutFollows(cfg, s, token);
    if i :| HasToken(cfg, s, i, token) && LiveAt(s, i) {
      assert LogsOut(cfg, s, Logout(token), i);
    }
  }

  // ------------------------------------------------------------------------------------------------------ login

  ghost predicate HasEmail(s: State, u: Id, email: string) {
    u in s.t.users && s.t.users[u].email == email
  }

  /** Unknown, locked, not active, comparing: in this order, each exactly when it says. */
  lemma LoginReplies(cfg: Config, s: State, email: string, password: string, u: Id)
    requires Inv(cfg, s)
    ensures var r := Auth.Begun(cfg, s.t, s.clock, email, password);
            && (r.UnknownEmail? <==> forall v :: !HasEmail(s, v, email))
            && (HasEmail(s, u, email) ==>
                  var row := s.t.users[u];
                  && (r.Locked? <==> row.lockedUntil.Some? && row.lockedUntil.value > s.clock)
                  && (r.Locked? ==> Some(r.until) == row.lockedUntil)
                  && (r.NotActive? <==> !r.Locked? && row.status != Active)
                  && (r.NotActive? ==> r.status == row.status)
                  && (r.Comparing? <==> Comparable(s, email, u))
                  && (r.Comparing? ==> r.attempt == Auth.Attempt(u, row.failedLogins,
                                                                 cfg.matches(password, row.passwordHash))))
  {
    assert PartOk(s.t, UsersPart);
    if UserByEmail(s.t, email).Some? {
      assert HasEmail(s, UserByEmail(s.t, email).value, email);
    }
  }

  /** A wrong password, a session that could not be stored, or a token with its expiry. */
  lemma LoginEndReplies(cfg: Config, s: State, call: nat, sid: Id, token: string)
    requires Inv(cfg, s) && call in s.calls && s.calls[call].LoginCall?
    ensures s.calls[call].attempt.userId in s.t.users
    ensures var r := Auth.Resumed(cfg, s.t, s.clock, s.calls[call].attempt, sid, token).1;
            && (r.WrongPassword? <==> !s.calls[call].attempt.matched)
            && (r == Auth.LoggedIn(s.clock + cfg.sessionMs) <==>
                  OpensSession(cfg, s, LoginFinish(call, sid, token), sid))
            && (r.LoggedIn? ==> r.expiresAt == s.clock + cfg.sessionMs)
  {
    assert Holds(cfg, s, CallsFact);
    assert CallHolds(s.t, s.calls[call]);
    if s.calls[call].attempt.matched {
      Auth.SuccessShape(cfg, s.t, s.clock, s.calls[call].attempt, sid, token);
    }
  }

  // --------------------------------------------------------------------------------------- recovery, activation

  ghost predicate HasRecovery(s: State, q: Id, token: string) {
    q in s.t.recoveries && s.t.recoveries[q].token == token
  }

  /** Not found, consumed or expired, rejected password, hashing: in this order, each exactly when it says. */
  lemma ResetReplies(cfg: Config, s: State, token: string, password: string, q: Id)
    requires Inv(cfg, s)
    ensures var r := PasswordRecovery.ResetBegun(cfg, s.t, s.clock, token, password);
            && (r.TokenNotFound? <==> forall p :: !HasRecovery(s, p, token))
            && (HasRecovery(s, q, token) ==>
                  var open := !s.t.recoveries[q].consumed && s.clock <= s.t.recoveries[q].expiresAt;
                  && (r.TokenExpired? <==> !open)
                  && (r.PolicyViolation? <==> open && !cfg.policy(password))
                  && (r == PasswordRecovery.Hashing(
                             PasswordRecovery.Attempt(q, s.t.recoveries[q].userId, s.clock)) <==>
                        open && cfg.policy(password)))
  {
    assert PartOk(s.t, RecoveriesPart);
    if RecoveryByToken(s.t, token).Some? {
      assert HasRecovery(s, RecoveryByToken(s.t, token).value, token);
    }
  }

  ghost predicate HasValue(s: State, k: Id, value: string) {
    k in s.t.tokens && s.t.tokens[k].value == value
  }

  /** Not found, expired, consumed, account not pending, aborted, activated: in this order. */
  lemma ActivateReplies(cfg: Config, s: State, value: string, fault: int, k: Id)
    requires Inv(cfg, s)
    ensures var r := Accounts.Activation(s.t, s.clock, value, fault).1;
            && (r.TokenNotFound? <==> forall l :: !HasValue(s, l, value))
            && (HasValue(s, k, value) ==>
                  var row, u := s.t.tokens[k], s.t.tokens[k].userId;
                  && u in s.t.users
                  && (r.TokenExpired? <==> s.clock > row.expiresAt)
                  && (r.TokenConsumed? <==> s.clock <= row.expiresAt && row.consumed)
                  && (r.AccountNotPending? <==>
                        s.clock <= row.expiresAt && !row.consumed && s.t.users[u].status != Pending)
                  && (r.Aborted? <==> s.clock <= row.expiresAt && !row.consumed && s.t.users[u].status == Pending
                                      && 0 <= fault < 2)
                  && (r == Accounts.Activated(u) <==> SpendsToken(s, ActivateAccount(value, fault), k)))
  {
    assert PartOk(s.t, TokensPart);
    if TokenByValue(s.t, value).Some? {
      assert HasValue(s, TokenByValue(s.t, value).value, value);
    }
  }
}
