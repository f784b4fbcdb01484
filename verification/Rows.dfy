/**
 * The tables told row by row: exactly which actions write a row and what it holds afterwards, and exactly which
 * actions add one. Everything here is said of rows, codes, clocks and waiting calls, never of the services' own
 * functions, so it is a second account of the whole service to hold the first one against.
 */
module Rows {
  import opened Prelude
  import opened Schema
  import opened Sessions
  import opened Auth
  import opened Otps
  import opened Deletion
  import PasswordRecovery
  import opened Accounts
  import opened Outbox
  import opened System
  import opened Invariants
  import opened Frames

  // ------------------------------------------------------------------------------------ which tables are left alone

  /** The tables an action may write. */
  function Touched(a: Action): set<Table> {
    match a
    case SuspendUser(_) => {UserTable}
    case RegisterEnd(_, _, _) => {UserTable}
    case IssueStore(_, _, _) => {OtpTable}
    case IssueClear(_) => {OtpTable}
    case IssueInsert(_) => {OtpTable}
    case IssueMark(_, _) => {OtpTable}
    case VerifyOtp(_, _, _) => {UserTable, OtpTable}
    case AddActivationToken(_, _) => {TokenTable}
    case ActivateAccount(_, _) => {UserTable, TokenTable}
    case LoginFinish(_, _, _) => {UserTable, SessionTable}
    case ValidateSession(_) => {SessionTable}
    case Logout(_) => {SessionTable}
    case RequestDeletion(_, _, _) => {RequestTable}
    case ConfirmDeletion(_, _, _, _) => {UserTable, RequestTable, SessionTable, NoticeTable}
    case CancelDeletion(_) => {RequestTable}
    case RequestRecovery(_, _, _) => {RecoveryTable}
    case ResetFinish(_, _, _) => {UserTable, RecoveryTable, SessionTable}
    case NoticeSettle(_, _) => {NoticeTable}
    case _ => {}
  }

  predicate SameTable(a: Tables, b: Tables, k: Table) {
    match k
    case UserTable => a.users == b.users
    case SessionTable => a.sessions == b.sessions
    case OtpTable => a.otps == b.otps
    case RequestTable => a.requests == b.requests
    case RecoveryTable => a.recoveries == b.recoveries
    case TokenTable => a.tokens == b.tokens
    case NoticeTable => a.notices == b.notices
  }

  ghost predicate KeptBut(a: Tables, b: Tables, touched: set<Table>) {
    forall k | k !in touched :: SameTable(a, b, k)
  }

  lemma AccountsTouch(cfg: Config, s: State, a: Action)
    requires AccountAction(a)
    ensures KeptBut(s.t, Step(cfg, s, a).t, Touched(a))
  {
    match a
    case SuspendUser(_) =>
    case RegisterEnd(_, _, _) =>
    case VerifyOtp(u, code, fault) => VerifyTouches(cfg, s, u, code, fault);
    case AddActivationToken(_, _) =>
    case ActivateAccount(value, fault) => ActivateTouches(s, value, fault);
  }

  lemma VerifyTouches(cfg: Config, s: State, u: Id, code: string, fault: int)
    ensures KeptBut(s.t, SubmitOtp(cfg, s, u, code, fault).t, {UserTable, OtpTable})
  {
  }

  lemma ActivateTouches(s: State, value: string, fault: int)
    ensures KeptBut(s.t, SubmitToken(s, value, fault).t, {UserTable, TokenTable})
  {
  }

  lemma ResetTouches(s: State, call: nat, hash: string, fault: int)
    requires call in s.calls && s.calls[call].ResetCall?
    ensures KeptBut(s.t, FinishReset(s, call, hash, fault).t, {UserTable, RecoveryTable, SessionTable})
  {
  }

  lemma RecoveryTouches(cfg: Config, s: State, email: string, token: string, id: Id)
    ensures KeptBut(s.t, AskRecovery(cfg, s, email, token, id).t, {RecoveryTable})
  {
  }

  lemma ValidateTouches(cfg: Config, s: State, token: string)
    ensures KeptBut(s.t, CheckSession(cfg, s, token).t, {SessionTable})
  {
  }

  lemma LogoutTouches(cfg: Config, s: State, token: string)
    ensures KeptBut(s.t, EndSession(cfg, s, token).t, {SessionTable})
  {
  }

  lemma SessionsTouch(cfg: Config, s: State, a: Action)
    requires SessionAction(a)
    ensures KeptBut(s.t, Step(cfg, s, a).t, Touched(a))
  {
    match a
    case IssueMark(_, _) =>
    case ValidateSession(token) => ValidateTouches(cfg, s, token);
    case Logout(token) => LogoutTouches(cfg, s, token);
    case ResetFinish(call, hash, fault) =>
      if call in s.calls && s.calls[call].ResetCall? {
        ResetTouches(s, call, hash, fault);
      }
    case RequestRecovery(email, token, id) => RecoveryTouches(cfg, s, email, token, id);
  }

  lemma AskTouches(cfg: Config, s: State, u: Id, code: string, id: Id)
    ensures KeptBut(s.t, AskDeletion(cfg, s, u, code, id).t, {RequestTable})
  {
  }

  lemma RequestsTouch(cfg: Config, s: State, a: Action)
    requires RequestAction(a)
    ensures KeptBut(s.t, Step(cfg, s, a).t, Touched(a))
  {
    match a
    case Advance(_) =>
    case RequestDeletion(u, code, id) => AskTouches(cfg, s, u, code, id);
    case CancelDeletion(_) =>
  }

  lemma DeletionTouches(cfg: Config, s: State, u: Id, code: string, noticeId: Id, fault: int)
    ensures KeptBut(s.t, FinishDeletion(cfg, s, u, code, noticeId, fault).t,
                    {UserTable, RequestTable, SessionTable, NoticeTable})
  {
  }

  lemma LoginTouches(cfg: Config, s: State, call: nat, sid: Id, token: string)
    requires call in s.calls && s.calls[call].LoginCall?
    ensures KeptBut(s.t, FinishLogin(cfg, s, call, sid, token).t, {UserTable, SessionTable})
  {
    var a := s.calls[call].attempt;
    if a.userId in s.t.users && a.matched {
      SuccessShape(cfg, s.t, s.clock, a, sid, token);
    }
  }

  /** An action leaves all tables alone but those it touches. */
  lemma StepTouches(cfg: Config, s: State, a: Action)
    ensures KeptBut(s.t, Step(cfg, s, a).t, Touched(a))
  {
    if AccountAction(a) {
      AccountsTouch(cfg, s, a);
    } else if SessionAction(a) {
      SessionsTouch(cfg, s, a);
    } else if RequestAction(a) {
      RequestsTouch(cfg, s, a);
    } else if Parks(a) {
      ParksFrame(cfg, s, a);
    } else if Issues(a) {
      IssueFrame(cfg, s, a);
    } else {
      match a
      case ConfirmDeletion(u, code, noticeId, fault) => DeletionTouches(cfg, s, u, code, noticeId, fault);
      case LoginFinish(call, sid, token) =>
        if call in s.calls && s.calls[call].LoginCall? {
          LoginTouches(cfg, s, call, sid, token);
        }
      case NoticeSettle(call, delivered) =>
        if call in s.calls && s.calls[call].NoticeCall? {
          SettleFrame(cfg, s, call, delivered);
        }
    }
  }

  // --------------------------------------------------------------------------------------------- what actions do

  /** The action deletes account u under its pending request r: right code, in time, nothing in the way. */
  ghost predicate Confirms(cfg: Config, s: State, a: Action, u: Id, r: Id) {
    && a.ConfirmDeletion? && a.u == u && u in s.t.users
    && r in s.t.requests && s.t.requests[r].userId == u && s.t.requests[r].status == Waiting
    && s.clock <= s.t.requests[r].expiresAt && cfg.hmac(a.code) == s.t.requests[r].codeHash
    && (forall v | v in s.t.users && v != u ::
          s.t.users[v].normalised != cfg.lower("deleted-user-" + u)
          && s.t.users[v].email != "deleted-" + u + "@deleted.invalid")
    && a.noticeId !in s.t.notices && !(0 <= a.fault < 4)
  }

  ghost predicate DeletesAccount(cfg: Config, s: State, a: Action, u: Id) {
    exists r: Id :: Confirms(cfg, s, a, u, r)
  }

  /** The action uses up passcode row o: active, in time, right code, owner pending or active. */
  ghost predicate AcceptsCode(cfg: Config, s: State, a: Action, o: Id) {
    && a.VerifyOtp? && a.u in s.t.users && (s.t.users[a.u].status == Pending || s.t.users[a.u].status == Active)
    && o in s.t.otps && s.t.otps[o].userId == a.u && s.t.otps[o].invalidatedAt == None
    && s.clock <= s.t.otps[o].expiresAt && cfg.hmac(a.code) == s.t.otps[o].codeHash && !(0 <= a.fault < 2)
  }

  /** The action spends activation token k: unspent, in time, owner pending. */
  predicate SpendsToken(s: State, a: Action, k: Id) {
    && a.ActivateAccount? && k in s.t.tokens && s.t.tokens[k].value == a.value && !s.t.tokens[k].consumed
    && s.clock <= s.t.tokens[k].expiresAt
    && s.t.tokens[k].userId in s.t.users && s.t.users[s.t.tokens[k].userId].status == Pending
    && !(0 <= a.fault < 2)
  }

  /** The action activates account u, by a passcode or by a token. */
  ghost predicate ActivatesAccount(cfg: Config, s: State, a: Action, u: Id) {
    || (a.VerifyOtp? && a.u == u && exists o: Id :: AcceptsCode(cfg, s, a, o))
    || (a.ActivateAccount? && exists k: Id :: SpendsToken(s, a, k) && s.t.tokens[k].userId == u)
  }

  /** The action ends a login on u. */
  predicate EndsLogin(s: State, a: Action, u: Id) {
    a.LoginFinish? && LoginOn(s, a.call, u)
  }

  /** The action commits a reset of u's password. */
  predicate Resets(s: State, a: Action, u: Id) {
    && a.ResetFinish? && a.call in s.calls && s.calls[a.call].ResetCall? && s.calls[a.call].reset.userId == u
    && !(0 <= a.fault < 3)
  }

  predicate Suspends(s: State, a: Action, u: Id) {
    a.SuspendUser? && a.u == u && u in s.t.users && (s.t.users[u].status == Pending || s.t.users[u].status == Active)
  }

  /** The action creates account u, for the name and email its call began with. */
  predicate Registers(cfg: Config, s: State, a: Action, u: Id) {
    && a.RegisterEnd? && a.id == u && a.call in s.calls && s.calls[a.call].RegisterCall? && u !in s.t.users
    && var c := s.calls[a.call];
       forall v | v in s.t.users ::
         s.t.users[v].normalised != cfg.lower(cfg.trim(c.username)) && s.t.users[v].email != c.email
  }

  // ------------------------------------------------------------------------------------------------------- users

  /** What the action makes of u's row. */
  ghost function UserAfter(cfg: Config, s: State, a: Action, u: Id): User
    requires u in s.t.users
  {
    var row := s.t.users[u];
    match a
    case ConfirmDeletion(_, _, _, _) =>
      if !DeletesAccount(cfg, s, a, u) then row
      else row.(status := Deleted, email := "deleted-" + u + "@deleted.invalid", username := "deleted-user-" + u,
                normalised := cfg.lower("deleted-user-" + u), deletedAt := Some(s.clock))
    case VerifyOtp(_, _, _) =>
      if ActivatesAccount(cfg, s, a, u) then row.(status := Active, activatedAt := Some(s.clock)) else row
    case ActivateAccount(_, _) =>
      if ActivatesAccount(cfg, s, a, u) then row.(status := Active, activatedAt := Some(s.clock)) else row
    case LoginFinish(call, _, _) =>
      if !EndsLogin(s, a, u) then row
      else if s.calls[call].attempt.matched then row.(failedLogins := 0, lastLoginAt := Some(s.clock))
      else if s.calls[call].attempt.failures + 1 < cfg.threshold then row.(failedLogins := row.failedLogins + 1)
      else row.(failedLogins := 0, lockedUntil := Some(s.clock + cfg.lockoutMs))
    case ResetFinish(_, hash, _) => if Resets(s, a, u) then row.(passwordHash := hash) else row
    case SuspendUser(_) => if Suspends(s, a, u) then row.(status := Suspended) else row
    case _ => row
  }

  ghost predicate UserFollows(cfg: Config, s: State, a: Action, users: map<Id, User>, u: Id) {
    if u in s.t.users then u in users && users[u] == UserAfter(cfg, s, a, u)
    else if !Registers(cfg, s, a, u) then u !in users
    else
      var c := s.calls[a.call];
      u in users && users[u] == User(c.username, cfg.lower(cfg.trim(c.username)), c.email, a.hash, Pending, s.clock,
                                     None, 0, None, None, None)
  }

  lemma SuspendUsers(cfg: Config, s: State, u: Id, x: Id)
    ensures UserFollows(cfg, s, SuspendUser(u), AdminSuspends(s, u).t.users, x)
  {
  }

  lemma RegisterUsers(cfg: Config, s: State, call: nat, id: Id, hash: string, x: Id)
    requires call in s.calls && s.calls[call].RegisterCall?
    ensures UserFollows(cfg, s, RegisterEnd(call, id, hash), EndRegister(cfg, s, call, id, hash).t.users, x)
  {
  }

  lemma VerifyUsers(cfg: Config, s: State, u: Id, code: string, fault: int, x: Id)
    requires Inv(cfg, s)
    ensures UserFollows(cfg, s, VerifyOtp(u, code, fault), SubmitOtp(cfg, s, u, code, fault).t.users, x)
  {
    VerifyFollows(cfg, s, u, code, fault);
  }

  /** A verify uses up exactly the row the description says, or nothing happens. */
  lemma VerifyFollows(cfg: Config, s: State, u: Id, code: string, fault: int)
    requires Inv(cfg, s)
    ensures var a, r := VerifyOtp(u, code, fault), Verified(cfg, s.t, s.clock, u, code, fault);
            && (forall o :: AcceptsCode(cfg, s, a, o) <==> r.1 == Accepted(o))
            && (r.1.Accepted? ==> u in s.t.users && r.1.otpId in s.t.otps
                                  && r.0 == OtpAccepted(s.t, u, r.1.otpId, s.clock))
            && (!r.1.Accepted? ==> r.0 == s.t)
  {
    assert PartOk(s.t, OtpsPart);
    forall o | AcceptsCode(cfg, s, VerifyOtp(u, code, fault), o) ensures OtpOf(s.t, u) == Some(o) {
      assert ActiveOtp(s.t, u, o);
    }
  }

  /** The same for activation tokens. */
  lemma ActivateFollows(cfg: Config, s: State, value: string, fault: int)
    requires Inv(cfg, s)
    ensures forall k | SpendsToken(s, ActivateAccount(value, fault), k) ::
              TokenByValue(s.t, value) == Some(k) && Activation(s.t, s.clock, value, fault).1.Activated?
    ensures var r := Activation(s.t, s.clock, value, fault);
            if r.1.Activated? then
              && TokenByValue(s.t, value).Some?
              && SpendsToken(s, ActivateAccount(value, fault), TokenByValue(s.t, value).value)
              && r.0 == TokenSpent(s.t, TokenByValue(s.t, value).value, s.clock)
            else r.0 == s.t
  {
    assert PartOk(s.t, TokensPart);
    forall k | SpendsToken(s, ActivateAccount(value, fault), k)
      ensures TokenByValue(s.t, value) == Some(k) && Activation(s.t, s.clock, value, fault).1.Activated?
    {
      assert TokenByValue(s.t, value).Some?;
      assert TokenByValue(s.t, value).value == k;
    }
  }

  lemma ActivateUsers(cfg: Config, s: State, value: string, fault: int, x: Id)
    requires Inv(cfg, s)
    ensures UserFollows(cfg, s, ActivateAccount(value, fault), SubmitToken(s, value, fault).t.users, x)
  {
    ActivateFollows(cfg, s, value, fault);
  }

  lemma LoginUsers(cfg: Config, s: State, call: nat, sid: Id, token: string, x: Id)
    requires call in s.calls && s.calls[call].LoginCall?
    ensures UserFollows(cfg, s, LoginFinish(call, sid, token), FinishLogin(cfg, s, call, sid, token).t.users, x)
  {
    LoginFrame(cfg, s, call, sid, token);
  }

  /** A deletion goes through under exactly the request the description says, or nothing happens. */
  lemma ConfirmFollows(cfg: Config, s: State, u: Id, code: string, noticeId: Id, fault: int)
    requires Inv(cfg, s)
    ensures var a, r := ConfirmDeletion(u, code, noticeId, fault),
                        ConfirmedDeletion(cfg, s.t, s.clock, u, code, noticeId, fault);
            && (forall q :: Confirms(cfg, s, a, u, q) <==> r.1 == Finished(q))
            && (r.1.Finished? ==> u in s.t.users && r.1.requestId in s.t.requests
                                  && r.0 == Finalised(cfg, s.t, u, r.1.requestId, noticeId, s.clock))
            && (!r.1.Finished? ==> r.0 == s.t)
  {
    assert PartOk(s.t, RequestsPart);
    var a, r := ConfirmDeletion(u, code, noticeId, fault),
                ConfirmedDeletion(cfg, s.t, s.clock, u, code, noticeId, fault);
    forall q | Confirms(cfg, s, a, u, q) ensures RequestOf(s.t, u) == Some(q) {
      assert WaitingRequest(s.t, u, q);
    }
    if r.1.Finished? {
      assert WaitingRequest(s.t, u, r.1.requestId);
    }
  }

  /** The tables a deletion leaves, as the description has them. */
  ghost predicate ConfirmedTables(cfg: Config, s: State, a: Action, t: Tables) {
    if a.ConfirmDeletion? && DeletesAccount(cfg, s, a, a.u) then
      exists q: Id :: Confirms(cfg, s, a, a.u, q) && t == Finalised(cfg, s.t, a.u, q, a.noticeId, s.clock)
                      && forall r | Confirms(cfg, s, a, a.u, r) :: r == q
    else t == s.t
  }

  lemma ConfirmEnds(cfg: Config, s: State, u: Id, code: string, noticeId: Id, fault: int)
    requires Inv(cfg, s)
    ensures ConfirmedTables(cfg, s, ConfirmDeletion(u, code, noticeId, fault),
                            FinishDeletion(cfg, s, u, code, noticeId, fault).t)
  {
    ConfirmFollows(cfg, s, u, code, noticeId, fault);
    var r := ConfirmedDeletion(cfg, s.t, s.clock, u, code, noticeId, fault);
    if r.1.Finished? {
      assert Confirms(cfg, s, ConfirmDeletion(u, code, noticeId, fault), u, r.1.requestId);
    }
  }

  lemma FinalisedUser(cfg: Config, t: Tables, u: Id, q: Id, noticeId: Id, now: Time)
    requires u in t.users && q in t.requests
    ensures Finalised(cfg, t, u, q, noticeId, now).users
         == t.users[u := t.users[u].(status := Deleted, email := "deleted-" + u + "@deleted.invalid",
                                     username := "deleted-user-" + u, normalised := cfg.lower("deleted-user-" + u),
                                     deletedAt := Some(now))]
  {
  }

  lemma ConfirmedUser(cfg: Config, s: State, a: Action, q: Id, t: Tables, x: Id)
    requires a.ConfirmDeletion? && Confirms(cfg, s, a, a.u, q)
    requires t == Finalised(cfg, s.t, a.u, q, a.noticeId, s.clock)
    ensures UserFollows(cfg, s, a, t.users, x)
  {
    FinalisedUser(cfg, s.t, a.u, q, a.noticeId, s.clock);
    assert DeletesAccount(cfg, s, a, a.u);
  }

  lemma ConfirmUsers(cfg: Config, s: State, a: Action, t: Tables, x: Id)
    requires a.ConfirmDeletion? && ConfirmedTables(cfg, s, a, t)
    ensures UserFollows(cfg, s, a, t.users, x)
  {
    if DeletesAccount(cfg, s, a, a.u) {
      var q: Id :| Confirms(cfg, s, a, a.u, q) && t == Finalised(cfg, s.t, a.u, q, a.noticeId, s.clock);
      ConfirmedUser(cfg, s, a, q, t, x);
    }
  }

  lemma ResetUsers(cfg: Config, s: State, call: nat, hash: string, fault: int, x: Id)
    requires Inv(cfg, s) && call in s.calls && s.calls[call].ResetCall?
    ensures UserFollows(cfg, s, ResetFinish(call, hash, fault), FinishReset(s, call, hash, fault).t.users, x)
  {
    assert Holds(cfg, s, CallsFact);
    assert CallHolds(s.t, s.calls[call]);
  }

  lemma OthersUsers(cfg: Config, s: State, a: Action, x: Id)
    requires UserTable !in Touched(a)
    ensures UserFollows(cfg, s, a, s.t.users, x)
  {
  }

  lemma UserByAccounts(cfg: Config, s: State, a: Action, x: Id)
    requires Inv(cfg, s) && AccountAction(a)
    ensures UserFollows(cfg, s, a, Step(cfg, s, a).t.users, x)
  {
    match a
    case SuspendUser(u) => SuspendUsers(cfg, s, u, x);
    case RegisterEnd(call, id, hash) =>
      if call in s.calls && s.calls[call].RegisterCall? {
        RegisterUsers(cfg, s, call, id, hash, x);
      }
    case VerifyOtp(u, code, fault) => VerifyUsers(cfg, s, u, code, fault, x);
    case AddActivationToken(_, _) =>
    case ActivateAccount(value, fault) => ActivateUsers(cfg, s, value, fault, x);
  }

  /** Exactly what becomes of an account, and exactly which actions create one. */
  lemma UserExactly(cfg: Config, s: State, a: Action, x: Id)
    requires Inv(cfg, s)
    ensures UserFollows(cfg, s, a, Step(cfg, s, a).t.users, x)
  {
    if AccountAction(a) {
      UserByAccounts(cfg, s, a, x);
    } else if UserTable !in Touched(a) {
      StepTouches(cfg, s, a);
      assert SameTable(s.t, Step(cfg, s, a).t, UserTable);
      OthersUsers(cfg, s, a, x);
    } else {
      match a
      case LoginFinish(call, sid, token) =>
        if call in s.calls && s.calls[call].LoginCall? {
          LoginUsers(cfg, s, call, sid, token, x);
        }
      case ConfirmDeletion(u, code, noticeId, fault) =>
        ConfirmEnds(cfg, s, u, code, noticeId, fault);
        ConfirmUsers(cfg, s, a, Step(cfg, s, a).t, x);
      case ResetFinish(call, hash, fault) =>
        if call in s.calls && s.calls[call].ResetCall? {
          ResetUsers(cfg, s, call, hash, fault, x);
        }
    }
  }

  // ---------------------------------------------------------------------------------------------------- sessions

  /** Session i has not been ended, and its time is not up. */
  predicate LiveAt(s: State, i: Id) {
    i in s.t.sessions && !s.t.sessions[i].invalidated && s.clock < s.t.sessions[i].expiresAt
  }

  /** The action logs out of session i. */
  ghost predicate LogsOut(cfg: Config, s: State, a: Action, i: Id) {
    a.Logout? && LiveAt(s, i) && s.t.sessions[i].tokenHash == cfg.sha(a.token)
  }

  /** The action presents the token of live session j, whose owner is no longer active: all the owner's sessions end. */
  ghost predicate ShutsOut(cfg: Config, s: State, a: Action, u: Id, j: Id) {
    && a.ValidateSession? && LiveAt(s, j) && s.t.sessions[j].tokenHash == cfg.sha(a.token)
    && s.t.sessions[j].userId == u && u in s.t.users && s.t.users[u].status != Active
  }

  /** When the action stamps the end of session i; None if it does not end it. */
  ghost function EndOf(cfg: Config, s: State, a: Action, i: Id): Option<Time>
    requires i in s.t.sessions
  {
    var u := s.t.sessions[i].userId;
    if s.t.sessions[i].invalidated then None
    else match a
      case Logout(_) => if LogsOut(cfg, s, a, i) then Some(s.clock) else None
      case ValidateSession(_) => if exists j: Id :: ShutsOut(cfg, s, a, u, j) then Some(s.clock) else None
      case ConfirmDeletion(_, _, _, _) => if DeletesAccount(cfg, s, a, u) then Some(s.clock) else None
      case ResetFinish(call, _, _) => if Resets(s, a, u) then Some(s.calls[call].reset.checkedAt) else None
      case _ => None
  }

  /** The action ends a login whose password matched, and its session id and token hash are free. */
  predicate OpensSession(cfg: Config, s: State, a: Action, i: Id) {
    && a.LoginFinish? && a.sid == i && a.call in s.calls && s.calls[a.call].LoginCall?
    && s.calls[a.call].attempt.matched && s.calls[a.call].attempt.userId in s.t.users && i !in s.t.sessions
    && forall j | j in s.t.sessions :: s.t.sessions[j].tokenHash != cfg.sha(a.token)
  }

  ghost predicate SessionFollows(cfg: Config, s: State, a: Action, sessions: map<Id, Session>, i: Id) {
    if i in s.t.sessions then
      && i in sessions
      && sessions[i] == match EndOf(cfg, s, a, i)
                        case None => s.t.sessions[i]
                        case Some(at) => s.t.sessions[i].(invalidated := true, invalidatedAt := Some(at))
    else if !OpensSession(cfg, s, a, i) then i !in sessions
    else
      i in sessions && sessions[i] == Session(s.calls[a.call].attempt.userId, cfg.sha(a.token), s.clock,
                                              s.clock + cfg.sessionMs, false, None)
  }

  lemma LoginSessions(cfg: Config, s: State, call: nat, sid: Id, token: string, x: Id)
    requires call in s.calls && s.calls[call].LoginCall?
    ensures SessionFollows(cfg, s, LoginFinish(call, sid, token), FinishLogin(cfg, s, call, sid, token).t.sessions, x)
  {
    var a := s.calls[call].attempt;
    if a.userId in s.t.users && a.matched {
      SuccessShape(cfg, s.t, s.clock, a, sid, token);
    }
  }

  lemma FoundByHash(cfg: Config, s: State, i: Id, hash: string)
    requires Inv(cfg, s) && i in s.t.sessions && s.t.sessions[i].tokenHash == hash
    ensures SessionByHash(s.t, hash) == Some(i)
  {
    assert PartOk(s.t, SessionsPart);
  }

  lemma ValidateSessions(cfg: Config, s: State, token: string, x: Id)
    requires Inv(cfg, s)
    ensures SessionFollows(cfg, s, ValidateSession(token), CheckSession(cfg, s, token).t.sessions, x)
  {
    var a, hash := ValidateSession(token), cfg.sha(token);
    assert PartOk(s.t, SessionsPart);
    forall j | j in s.t.sessions && s.t.sessions[j].tokenHash == hash ensures SessionByHash(s.t, hash) == Some(j) {
      FoundByHash(cfg, s, j, hash);
    }
    if SessionByHash(s.t, hash).Some? {
      var j := SessionByHash(s.t, hash).value;
      var u := s.t.sessions[j].userId;
      assert ShutsOut(cfg, s, a, u, j) <==> LiveAt(s, j) && s.t.users[u].status != Active;
    }
  }

  /** A logout ends exactly the session the description says, or nothing happens. */
  lemma LogoutFollows(cfg: Config, s: State, token: string)
    requires Inv(cfg, s)
    ensures forall i | LogsOut(cfg, s, Logout(token), i) :: SessionByHash(s.t, cfg.sha(token)) == Some(i)
    ensures var found, r := SessionByHash(s.t, cfg.sha(token)), LoggedOut(cfg, s.t, s.clock, token);
            if found.Some? && LogsOut(cfg, s, Logout(token), found.value) then
              var i := found.value;
              r == (s.t.(sessions := s.t.sessions[
                           i := s.t.sessions[i].(invalidated := true, invalidatedAt := Some(s.clock))]), false)
            else r == (s.t, true)
  {
    forall i | LogsOut(cfg, s, Logout(token), i) ensures SessionByHash(s.t, cfg.sha(token)) == Some(i) {
      FoundByHash(cfg, s, i, cfg.sha(token));
    }
  }

  lemma LogoutSessions(cfg: Config, s: State, token: string, x: Id)
    requires Inv(cfg, s)
    ensures SessionFollows(cfg, s, Logout(token), EndSession(cfg, s, token).t.sessions, x)
  {
    LogoutFollows(cfg, s, token);
  }

  lemma ConfirmedSession(cfg: Config, s: State, a: Action, q: Id, t: Tables, x: Id)
    requires a.ConfirmDeletion? && Confirms(cfg, s, a, a.u, q)
    requires t == Finalised(cfg, s.t, a.u, q, a.noticeId, s.clock)
    ensures SessionFollows(cfg, s, a, t.sessions, x)
  {
    assert DeletesAccount(cfg, s, a, a.u);
  }

  lemma ConfirmSessions(cfg: Config, s: State, a: Action, t: Tables, x: Id)
    requires a.ConfirmDeletion? && ConfirmedTables(cfg, s, a, t)
    ensures SessionFollows(cfg, s, a, t.sessions, x)
  {
    if DeletesAccount(cfg, s, a, a.u) {
      var q: Id :| Confirms(cfg, s, a, a.u, q) && t == Finalised(cfg, s.t, a.u, q, a.noticeId, s.clock);
      ConfirmedSession(cfg, s, a, q, t, x);
    }
  }

  lemma ResetSessions(cfg: Config, s: State, call: nat, hash: string, fault: int, x: Id)
    requires Inv(cfg, s) && call in s.calls && s.calls[call].ResetCall?
    ensures SessionFollows(cfg, s, ResetFinish(call, hash, fault), FinishReset(s, call, hash, fault).t.sessions, x)
  {
    assert Holds(cfg, s, CallsFact);
    assert CallHolds(s.t, s.calls[call]);
  }

  lemma OthersSessions(cfg: Config, s: State, a: Action, x: Id)
    requires SessionTable !in Touched(a)
    ensures SessionFollows(cfg, s, a, s.t.sessions, x)
  {
  }

  /** Exactly when, and with which stamp, a session ends; and exactly which actions open one. */
  lemma SessionExactly(cfg: Config, s: State, a: Action, x: Id)
    requires Inv(cfg, s)
    ensures SessionFollows(cfg, s, a, Step(cfg, s, a).t.sessions, x)
  {
    if SessionTable !in Touched(a) {
      StepTouches(cfg, s, a);
      assert SameTable(s.t, Step(cfg, s, a).t, SessionTable);
      OthersSessions(cfg, s, a, x);
    } else {
      match a
      case LoginFinish(call, sid, token) =>
        if call in s.calls && s.calls[call].LoginCall? {
          LoginSessions(cfg, s, call, sid, token, x);
        }
      case ValidateSession(token) => ValidateSessions(cfg, s, token, x);
      case Logout(token) => LogoutSessions(cfg, s, token, x);
      case ConfirmDeletion(u, code, noticeId, fault) =>
        ConfirmEnds(cfg, s, u, code, noticeId, fault);
        ConfirmSessions(cfg, s, a, Step(cfg, s, a).t, x);
      case ResetFinish(call, hash, fault) =>
        if call in s.calls && s.calls[call].ResetCall? {
          ResetSessions(cfg, s, call, hash, fault, x);
        }
    }
  }

  // --------------------------------------------------------------------------------------------------- passcodes

  /** The action clears the active passcodes of u, to store a new one. */
  predicate ClearsCodes(s: State, a: Action, u: Id) {
    && (a.IssueStore? || a.IssueClear?) && a.call in s.calls && s.calls[a.call].IssueCall?
    && s.calls[a.call].userId == u
  }

  /** The action reports the dispatch of passcode o. */
  predicate ReportsDispatch(s: State, a: Action, o: Id) {
    a.IssueMark? && a.call in s.calls && s.calls[a.call].DispatchCall? && s.calls[a.call].otpId == o
  }

  /** The action stores passcode row o in the segment that drew it. */
  predicate StoresFresh(s: State, a: Action, o: Id) {
    && a.IssueStore? && a.id == o && a.call in s.calls && s.calls[a.call].IssueCall?
    && s.calls[a.call].userId in s.t.users && o !in s.t.otps
  }

  /** The action stores passcode row o, drawn in an earlier segment, and the user has no active row. */
  predicate StoresDrawn(s: State, a: Action, o: Id) {
    && a.IssueInsert? && a.call in s.calls && s.calls[a.call].NumberedCall? && s.calls[a.call].id == o
    && s.calls[a.call].row.userId in s.t.users && o !in s.t.otps
    && forall p | p in s.t.otps && s.t.otps[p].userId == s.calls[a.call].row.userId ::
         s.t.otps[p].invalidatedAt != None
  }

  ghost function OtpAfter(cfg: Config, s: State, a: Action, o: Id): Otp
    requires o in s.t.otps
  {
    var row := s.t.otps[o];
    match a
    case VerifyOtp(_, _, _) => if AcceptsCode(cfg, s, a, o) then row.(invalidatedAt := Some(s.clock)) else row
    case IssueMark(_, delivered) =>
      if ReportsDispatch(s, a, o) then row.(status := if delivered then OtpDelivered else OtpFailed) else row
    case _ =>
      if row.invalidatedAt == None && ClearsCodes(s, a, row.userId) then row.(invalidatedAt := Some(s.clock)) else row
  }

  ghost predicate OtpFollows(cfg: Config, s: State, a: Action, otps: map<Id, Otp>, o: Id) {
    if o in s.t.otps then o in otps && otps[o] == OtpAfter(cfg, s, a, o)
    else if StoresFresh(s, a, o) then
      var c := s.calls[a.call];
      o in otps && otps[o] == Otp(c.userId, c.email, cfg.hmac(a.code), OtpPending, s.clock, s.clock + cfg.otpTtlMs,
                                  None, LastSequence(s.t, c.userId) + 1)
    else if StoresDrawn(s, a, o) then o in otps && otps[o] == s.calls[a.call].row
    else o !in otps
  }

  lemma LastAfterClearing(t: Tables, u: Id, now: Time)
    ensures LastSequence(Cleared(t, u, now), u) == LastSequence(t, u)
  {
    var a, b := t, Cleared(t, u, now);
    var n, m := LastSequence(a, u), LastSequence(b, u);
    if n > 0 {
      var o :| o in a.otps && a.otps[o].userId == u && a.otps[o].sequence == n;
      assert b.otps[o].userId == u && b.otps[o].sequence <= m;
    }
    if m > 0 {
      var o :| o in b.otps && b.otps[o].userId == u && b.otps[o].sequence == m;
      assert a.otps[o].sequence <= n;
    }
  }

  lemma StoreOtps(cfg: Config, s: State, call: nat, code: string, id: Id, x: Id)
    requires call in s.calls && s.calls[call].IssueCall?
    ensures OtpFollows(cfg, s, IssueStore(call, code, id), StoreIssue(cfg, s, call, code, id).t.otps, x)
  {
    LastAfterClearing(s.t, s.calls[call].userId, s.clock);
  }

  lemma ClearOtps(cfg: Config, s: State, call: nat, x: Id)
    requires call in s.calls && s.calls[call].IssueCall?
    ensures OtpFollows(cfg, s, IssueClear(call), ClearIssue(s, call).t.otps, x)
  {
  }

  lemma InsertOtps(cfg: Config, s: State, call: nat, x: Id)
    requires Inv(cfg, s) && call in s.calls && s.calls[call].NumberedCall?
    ensures OtpFollows(cfg, s, IssueInsert(call), InsertIssue(s, call).t.otps, x)
  {
    assert Holds(cfg, s, CallsFact);
    assert CallHolds(s.t, s.calls[call]);
  }

  lemma MarkOtps(cfg: Config, s: State, call: nat, delivered: bool, x: Id)
    requires call in s.calls && s.calls[call].DispatchCall?
    ensures OtpFollows(cfg, s, IssueMark(call, delivered), MarkIssue(s, call, delivered).t.otps, x)
  {
  }

  lemma VerifyOtps(cfg: Config, s: State, u: Id, code: string, fault: int, x: Id)
    requires Inv(cfg, s)
    ensures OtpFollows(cfg, s, VerifyOtp(u, code, fault), SubmitOtp(cfg, s, u, code, fault).t.otps, x)
  {
    VerifyFollows(cfg, s, u, code, fault);
  }

  lemma OtpByIssues(cfg: Config, s: State, a: Action, x: Id)
    requires Inv(cfg, s) && Issues(a)
    ensures OtpFollows(cfg, s, a, Step(cfg, s, a).t.otps, x)
  {
    match a
    case IssueStore(call, code, id) =>
      if call in s.calls && s.calls[call].IssueCall? {
        StoreOtps(cfg, s, call, code, id, x);
      }
    case IssueClear(call) =>
      if call in s.calls && s.calls[call].IssueCall? {
        ClearOtps(cfg, s, call, x);
      }
    case IssueInsert(call) =>
      if call in s.calls && s.calls[call].NumberedCall? {
        InsertOtps(cfg, s, call, x);
      }
  }

  lemma OthersOtps(cfg: Config, s: State, a: Action, x: Id)
    requires OtpTable !in Touched(a)
    ensures OtpFollows(cfg, s, a, s.t.otps, x)
  {
  }

  /** Exactly when a passcode is used up or reported, and exactly which actions store one, with what in it. */
  lemma OtpExactly(cfg: Config, s: State, a: Action, x: Id)
    requires Inv(cfg, s)
    ensures OtpFollows(cfg, s, a, Step(cfg, s, a).t.otps, x)
  {
    if OtpTable !in Touched(a) {
      StepTouches(cfg, s, a);
      assert SameTable(s.t, Step(cfg, s, a).t, OtpTable);
      OthersOtps(cfg, s, a, x);
    } else if Issues(a) {
      OtpByIssues(cfg, s, a, x);
    } else if a.IssueMark? {
      if a.call in s.calls && s.calls[a.call].DispatchCall? {
        MarkOtps(cfg, s, a.call, a.delivered, x);
      }
    } else {
      VerifyOtps(cfg, s, a.u, a.code, a.fault, x);
    }
  }

  // ------------------------------------------------------------------------- deletion requests and their notices

  /** The action makes u, active and without a pending request, a request r. */
  ghost predicate AsksDeletion(s: State, a: Action, r: Id) {
    && a.RequestDeletion? && a.id == r && a.u in s.t.users && s.t.users[a.u].status == Active && r !in s.t.requests
    && forall q | q in s.t.requests && s.t.requests[q].userId == a.u :: s.t.requests[q].status != Waiting
  }

  ghost function RequestAfter(cfg: Config, s: State, a: Action, r: Id): DeletionRequest
    requires r in s.t.requests
  {
    var row := s.t.requests[r];
    if a.CancelDeletion? && a.u == row.userId && row.status == Waiting
    then row.(status := Cancelled, cancelledAt := Some(s.clock))
    else if Confirms(cfg, s, a, row.userId, r) then row.(status := Confirmed, confirmedAt := Some(s.clock))
    else row
  }

  ghost predicate RequestFollows(cfg: Config, s: State, a: Action, requests: map<Id, DeletionRequest>, r: Id) {
    if r in s.t.requests then r in requests && requests[r] == RequestAfter(cfg, s, a, r)
    else if !AsksDeletion(s, a, r) then r !in requests
    else
      r in requests && requests[r] == DeletionRequest(a.u, cfg.hmac(a.code), s.clock, s.clock + cfg.deletionTtlMs,
                                                      Waiting, None, None)
  }

  lemma AskRequests(cfg: Config, s: State, u: Id, code: string, id: Id, x: Id)
    requires Inv(cfg, s)
    ensures RequestFollows(cfg, s, RequestDeletion(u, code, id), AskDeletion(cfg, s, u, code, id).t.requests, x)
  {
    forall q | q in s.t.requests && s.t.requests[q].userId == u && s.t.requests[q].status == Waiting
      ensures RequestOf(s.t, u).Some?
    {
      assert WaitingRequest(s.t, u, q);
    }
  }

  /** A cancellation ends exactly the pending request, or nothing happens. */
  lemma CancelFollows(cfg: Config, s: State, u: Id)
    requires Inv(cfg, s)
    ensures forall r | WaitingRequest(s.t, u, r) :: RequestOf(s.t, u) == Some(r)
    ensures var found, r := RequestOf(s.t, u), CancelledDeletion(s.t, s.clock, u);
            if found.None? then r == (s.t, false)
            else
              var q := found.value;
              r == (s.t.(requests := s.t.requests[
                           q := s.t.requests[q].(status := Cancelled, cancelledAt := Some(s.clock))]), true)
  {
    assert PartOk(s.t, RequestsPart);
    forall r | WaitingRequest(s.t, u, r) ensures RequestOf(s.t, u) == Some(r) {
      assert RequestOf(s.t, u).Some?;
    }
  }

  lemma CancelRequests(cfg: Config, s: State, u: Id, x: Id)
    requires Inv(cfg, s)
    ensures RequestFollows(cfg, s, CancelDeletion(u), WithdrawDeletion(s, u).t.requests, x)
  {
    CancelFollows(cfg, s, u);
    assert x in s.t.requests && s.t.requests[x].userId == u && s.t.requests[x].status == Waiting
      <==> WaitingRequest(s.t, u, x);
  }

  lemma ConfirmRequests(cfg: Config, s: State, a: Action, t: Tables, x: Id)
    requires Inv(cfg, s) && a.ConfirmDeletion? && ConfirmedTables(cfg, s, a, t)
    ensures RequestFollows(cfg, s, a, t.requests, x)
  {
  }

  lemma OthersRequests(cfg: Config, s: State, a: Action, x: Id)
    requires RequestTable !in Touched(a)
    ensures RequestFollows(cfg, s, a, s.t.requests, x)
  {
  }

  /** Exactly when a deletion request is cancelled or confirmed, and exactly which actions make one, with what in it. */
  lemma RequestExactly(cfg: Config, s: State, a: Action, x: Id)
    requires Inv(cfg, s)
    ensures RequestFollows(cfg, s, a, Step(cfg, s, a).t.requests, x)
  {
    if RequestTable !in Touched(a) {
      StepTouches(cfg, s, a);
      assert SameTable(s.t, Step(cfg, s, a).t, RequestTable);
      OthersRequests(cfg, s, a, x);
    } else {
      match a
      case RequestDeletion(u, code, id) => AskRequests(cfg, s, u, code, id, x);
      case CancelDeletion(u) => CancelRequests(cfg, s, u, x);
      case ConfirmDeletion(u, code, noticeId, fault) =>
        ConfirmEnds(cfg, s, u, code, noticeId, fault);
        ConfirmRequests(cfg, s, a, Step(cfg, s, a).t, x);
    }
  }

  /** The action ends the dispatch of notice n by a tick that had read `read` retries. */
  predicate Answers(s: State, a: Action, n: Id) {
    && a.NoticeSettle? && a.call in s.calls && s.calls[a.call].NoticeCall? && s.calls[a.call].queue != []
    && s.calls[a.call].queue[0] == n && n in s.calls[a.call].retriesRead
  }

  ghost predicate NoticeFollows(cfg: Config, s: State, a: Action, notices: map<Id, Notice>, n: Id) {
    if n in s.t.notices then
      var row := s.t.notices[n];
      && n in notices
      && notices[n] == if !Answers(s, a, n) then row
                       else if a.delivered then row.(delivery := Sent)
                       else if s.calls[a.call].retriesRead[n] < cfg.maxRetries then row.(retries := row.retries + 1)
                       else row.(delivery := Failed)
    else if !(a.ConfirmDeletion? && a.noticeId == n && DeletesAccount(cfg, s, a, a.u)) then n !in notices
    else n in notices && notices[n] == Record(a.u, s.t.users[a.u].email, s.clock, Queued, 0, s.clock)
  }

  lemma ConfirmNotices(cfg: Config, s: State, a: Action, t: Tables, x: Id)
    requires Inv(cfg, s) && a.ConfirmDeletion? && ConfirmedTables(cfg, s, a, t)
    ensures NoticeFollows(cfg, s, a, t.notices, x)
  {
  }

  lemma SettleNotices(cfg: Config, s: State, call: nat, delivered: bool, x: Id)
    requires call in s.calls && s.calls[call].NoticeCall?
    ensures NoticeFollows(cfg, s, NoticeSettle(call, delivered), SettleNotice(cfg, s, call, delivered).t.notices, x)
  {
  }

  lemma OthersNotices(cfg: Config, s: State, a: Action, x: Id)
    requires NoticeTable !in Touched(a)
    ensures NoticeFollows(cfg, s, a, s.t.notices, x)
  {
  }

  /** Exactly what an answer makes of a notice, and exactly which actions queue one, with what in it. */
  lemma NoticeExactly(cfg: Config, s: State, a: Action, x: Id)
    requires Inv(cfg, s)
    ensures NoticeFollows(cfg, s, a, Step(cfg, s, a).t.notices, x)
  {
    if NoticeTable !in Touched(a) {
      StepTouches(cfg, s, a);
      assert SameTable(s.t, Step(cfg, s, a).t, NoticeTable);
      OthersNotices(cfg, s, a, x);
    } else {
      match a
      case ConfirmDeletion(u, code, noticeId, fault) =>
        ConfirmEnds(cfg, s, u, code, noticeId, fault);
        ConfirmNotices(cfg, s, a, Step(cfg, s, a).t, x);
      case NoticeSettle(call, delivered) =>
        if call in s.calls && s.calls[call].NoticeCall? {
          SettleNotices(cfg, s, call, delivered, x);
        }
    }
  }

  // ------------------------------------------------------------------------------------------ recovery and tokens

  /** The action makes u, the holder of this email, a recovery token. */
  predicate AsksRecovery(s: State, a: Action, q: Id, u: Id) {
    && a.RequestRecovery? && a.id == q && u in s.t.users && s.t.users[u].email == a.email && q !in s.t.recoveries
    && forall r | r in s.t.recoveries :: s.t.recoveries[r].token != a.token
  }

  /** The action commits the reset that recovery token q allowed. */
  predicate UsesRecovery(s: State, a: Action, q: Id) {
    && a.ResetFinish? && a.call in s.calls && s.calls[a.call].ResetCall? && s.calls[a.call].reset.requestId == q
    && !(0 <= a.fault < 3)
  }

  ghost predicate RecoveryFollows(cfg: Config, s: State, a: Action, recoveries: map<Id, Recovery>, q: Id) {
    if q in s.t.recoveries then
      && q in recoveries
      && recoveries[q] == if !UsesRecovery(s, a, q) then s.t.recoveries[q]
                          else s.t.recoveries[q].(consumed := true,
                                                  consumedAt := Some(s.calls[a.call].reset.checkedAt))
    else if forall u :: !AsksRecovery(s, a, q, u) then q !in recoveries
    else
      && q in recoveries
      && forall u | AsksRecovery(s, a, q, u) ::
           recoveries[q] == Recovery(u, a.token, s.clock, s.clock + cfg.recoveryTtlMs, false, None)
  }

  lemma InsertRecoveryRuns(t: Tables, id: Id, row: Recovery)
    requires row.userId in t.users
    ensures Exec(t, InsertRecovery(id, row))
         == if id !in t.recoveries && (forall r | r in t.recoveries :: t.recoveries[r].token != row.token)
            then Some(t.(recoveries := t.recoveries[id := row])) else None
  {
  }

  /** Recovery is asked for by the one holder of the email, or nothing happens. */
  lemma AskFollows(cfg: Config, s: State, email: string, token: string, id: Id)
    requires Inv(cfg, s)
    ensures forall u | AsksRecovery(s, RequestRecovery(email, token, id), id, u) :: UserByEmail(s.t, email) == Some(u)
    ensures var found, t := UserByEmail(s.t, email),
                            PasswordRecovery.RecoveryRequested(cfg, s.t, s.clock, email, token, id);
            t.recoveries == if found.Some? && AsksRecovery(s, RequestRecovery(email, token, id), id, found.value)
                            then s.t.recoveries[id := Recovery(found.value, token, s.clock, s.clock + cfg.recoveryTtlMs,
                                                               false, None)]
                            else s.t.recoveries
  {
    assert PartOk(s.t, UsersPart);
    if UserByEmail(s.t, email).Some? {
      InsertRecoveryRuns(s.t, id, Recovery(UserByEmail(s.t, email).value, token, s.clock, s.clock + cfg.recoveryTtlMs,
                                           false, None));
    }
  }

  lemma AskRecoveries(cfg: Config, s: State, email: string, token: string, id: Id, x: Id)
    requires Inv(cfg, s)
    ensures RecoveryFollows(cfg, s, RequestRecovery(email, token, id),
                            AskRecovery(cfg, s, email, token, id).t.recoveries, x)
  {
    AskFollows(cfg, s, email, token, id);
  }

  lemma ResetRecoveries(cfg: Config, s: State, call: nat, hash: string, fault: int, x: Id)
    requires Inv(cfg, s) && call in s.calls && s.calls[call].ResetCall?
    ensures RecoveryFollows(cfg, s, ResetFinish(call, hash, fault), FinishReset(s, call, hash, fault).t.recoveries, x)
  {
    assert Holds(cfg, s, CallsFact);
    assert CallHolds(s.t, s.calls[call]);
  }

  lemma OthersRecoveries(cfg: Config, s: State, a: Action, x: Id)
    requires RecoveryTable !in Touched(a)
    ensures RecoveryFollows(cfg, s, a, s.t.recoveries, x)
  {
  }

  /** Exactly when a recovery token is used up, and exactly which actions make one, with what in it. */
  lemma RecoveryExactly(cfg: Config, s: State, a: Action, x: Id)
    requires Inv(cfg, s)
    ensures RecoveryFollows(cfg, s, a, Step(cfg, s, a).t.recoveries, x)
  {
    if RecoveryTable !in Touched(a) {
      StepTouches(cfg, s, a);
      assert SameTable(s.t, Step(cfg, s, a).t, RecoveryTable);
      OthersRecoveries(cfg, s, a, x);
    } else {
      match a
      case RequestRecovery(email, token, id) => AskRecoveries(cfg, s, email, token, id, x);
      case ResetFinish(call, hash, fault) =>
        if call in s.calls && s.calls[call].ResetCall? {
          ResetRecoveries(cfg, s, call, hash, fault, x);
        }
    }
  }

  ghost predicate TokenFollows(cfg: Config, s: State, a: Action, tokens: map<Id, ActivationToken>, k: Id) {
    k in s.t.tokens ==>
      && k in tokens
      && tokens[k] == if SpendsToken(s, a, k) then s.t.tokens[k].(consumed := true, consumedAt := Some(s.clock))
                      else s.t.tokens[k]
  }

  lemma AddTokens(cfg: Config, s: State, id: Id, row: ActivationToken, x: Id)
    ensures TokenFollows(cfg, s, AddActivationToken(id, row), AddToken(s, id, row).t.tokens, x)
  {
  }

  lemma ActivateTokens(cfg: Config, s: State, value: string, fault: int, x: Id)
    requires Inv(cfg, s)
    ensures TokenFollows(cfg, s, ActivateAccount(value, fault), SubmitToken(s, value, fault).t.tokens, x)
  {
    ActivateFollows(cfg, s, value, fault);
  }

  lemma OthersTokens(cfg: Config, s: State, a: Action, x: Id)
    requires TokenTable !in Touched(a)
    ensures TokenFollows(cfg, s, a, s.t.tokens, x)
  {
  }

  /** Exactly when an activation token is spent. */
  lemma TokenExactly(cfg: Config, s: State, a: Action, x: Id)
    requires Inv(cfg, s)
    ensures TokenFollows(cfg, s, a, Step(cfg, s, a).t.tokens, x)
  {
    if TokenTable !in Touched(a) {
      StepTouches(cfg, s, a);
      assert SameTable(s.t, Step(cfg, s, a).t, TokenTable);
      OthersTokens(cfg, s, a, x);
    } else {
      match a
      case AddActivationToken(id, row) => AddTokens(cfg, s, id, row, x);
      case ActivateAccount(value, fault) => ActivateTokens(cfg, s, value, fault, x);
    }
  }

  // -------------------------------------------------------------------------------------------- calls that begin

  /** An account a login with this email gets to compare a password for: active, and no lock is running. */
  predicate Comparable(s: State, email: string, u: Id) {
    && u in s.t.users && s.t.users[u].email == email && s.t.users[u].status == Active
    && (s.t.users[u].lockedUntil == None || s.t.users[u].lockedUntil.value <= s.clock)
  }

  /** The action starts a login on u: what it will have read, and how the comparison will end. */
  ghost predicate StartsLogin(cfg: Config, s: State, a: Action, c: nat, p: Auth.Attempt) {
    && a.LoginBegin? && a.call == c && c !in s.calls && Comparable(s, a.email, p.userId)
    && p.failures == s.t.users[p.userId].failedLogins
    && p.matched == cfg.matches(a.password, s.t.users[p.userId].passwordHash)
  }

  /** The action gets past the check of recovery token q. */
  ghost predicate StartsReset(cfg: Config, s: State, a: Action, c: nat, p: PasswordRecovery.Attempt) {
    && a.ResetBegin? && a.call == c && c !in s.calls
    && p.requestId in s.t.recoveries && s.t.recoveries[p.requestId].token == a.token
    && !s.t.recoveries[p.requestId].consumed && s.clock <= s.t.recoveries[p.requestId].expiresAt
    && cfg.policy(a.password)
    && p.userId == s.t.recoveries[p.requestId].userId && p.checkedAt == s.clock
  }

  /** The action gets past the status check of a passcode request. */
  predicate StartsIssue(s: State, a: Action, c: nat, u: Id, email: string) {
    && a.IssueBegin? && a.call == c && c !in s.calls && a.u == u && u in s.t.users
    && (s.t.users[u].status == Pending || s.t.users[u].status == Active) && email == s.t.users[u].email
  }

  /** The action draws the row that call c will store: the code's hash, and one more than the last number. */
  ghost predicate Draws(cfg: Config, s: State, a: Action, c: nat, id: Id, row: Otp, code: string) {
    && a.IssueNumber? && a.call == c && a.id == id && a.code == code && c in s.calls && s.calls[c].ClearedCall?
    && row == Otp(s.calls[c].userId, s.calls[c].email, cfg.hmac(a.code), OtpPending, s.clock, s.clock + cfg.otpTtlMs,
                  None, LastSequence(s.t, s.calls[c].userId) + 1)
  }

  /** The action stores row o and hands its code over to be sent to this address. */
  predicate Sends(s: State, a: Action, c: nat, o: Id, email: string, code: string) {
    || (StoresFresh(s, a, o) && a.call == c && email == s.calls[c].email && code == a.code)
    || (StoresDrawn(s, a, o) && a.call == c && email == s.calls[c].row.email && code == s.calls[c].code)
  }

  /** The action gets past the check that the username is free. */
  predicate StartsRegistration(cfg: Config, s: State, a: Action, c: nat, username: string, email: string) {
    && a.RegisterBegin? && a.call == c && c !in s.calls && a.username == username && a.email == email
    && forall u | u in s.t.users :: s.t.users[u].normalised != cfg.lower(cfg.trim(username))
  }

  lemma LoginBegins(cfg: Config, s: State, c: nat, email: string, password: string, p: Auth.Attempt)
    requires Inv(cfg, s) && c !in s.calls
    ensures Begun(cfg, s.t, s.clock, email, password) == Comparing(p) <==>
            StartsLogin(cfg, s, LoginBegin(c, email, password), c, p)
  {
    assert PartOk(s.t, UsersPart);
  }

  lemma ResetBegins(cfg: Config, s: State, c: nat, token: string, password: string, p: PasswordRecovery.Attempt)
    requires Inv(cfg, s) && c !in s.calls
    ensures PasswordRecovery.ResetBegun(cfg, s.t, s.clock, token, password) == PasswordRecovery.Hashing(p) <==>
            StartsReset(cfg, s, ResetBegin(c, token, password), c, p)
  {
    assert PartOk(s.t, RecoveriesPart);
  }

  /** The action puts this registration, passcode request, drawn row, login or reset in place. */
  ghost predicate StartsCall(cfg: Config, s: State, a: Action, c: nat, k: Call) {
    match k
    case RegisterCall(username, email) => StartsRegistration(cfg, s, a, c, username, email)
    case AskCall(u, email) => StartsIssue(s, a, c, u, email)
    case NumberedCall(id, row, code) => Draws(cfg, s, a, c, id, row, code)
    case DispatchCall(o, email, code) => Sends(s, a, c, o, email, code)
    case LoginCall(p) => StartsLogin(cfg, s, a, c, p)
    case ResetCall(p) => StartsReset(cfg, s, a, c, p)
    case _ => false
  }

  predicate IsStarted(k: Call) {
    k.RegisterCall? || k.AskCall? || k.NumberedCall? || k.DispatchCall? || k.LoginCall? || k.ResetCall?
  }

  lemma IssueStarts(cfg: Config, s: State, a: Action, c: nat, k: Call)
    requires (k.AskCall? || k.NumberedCall?) && StartsCall(cfg, s, a, c, k)
    ensures var s' := Step(cfg, s, a); c in s'.calls && s'.calls[c] == k
  {
    match k
    case AskCall(_, _) =>
    case NumberedCall(_, _, _) =>
  }

  /** Which drawn rows the schema accepts. */
  lemma InsertAccepted(cfg: Config, s: State, c: nat)
    requires Inv(cfg, s)
    ensures c in s.calls && s.calls[c].NumberedCall? ==>
              var row := s.calls[c].row;
              Exec(s.t, InsertOtp(s.calls[c].id, row)).Some? <==> StoresDrawn(s, IssueInsert(c), s.calls[c].id)
  {
    assert Holds(cfg, s, CallsFact);
    if c in s.calls {
      assert CallHolds(s.t, s.calls[c]);
    }
  }

  lemma SendStarts(cfg: Config, s: State, a: Action, c: nat, o: Id, email: string, code: string)
    requires Inv(cfg, s) && Sends(s, a, c, o, email, code)
    ensures var s' := Step(cfg, s, a); c in s'.calls && s'.calls[c] == DispatchCall(o, email, code)
  {
    InsertAccepted(cfg, s, c);
  }

  lemma CallStarts(cfg: Config, s: State, a: Action, c: nat, k: Call)
    requires Inv(cfg, s) && StartsCall(cfg, s, a, c, k)
    ensures var s' := Step(cfg, s, a); c in s'.calls && s'.calls[c] == k
  {
    match k
    case RegisterCall(_, _) =>
    case AskCall(_, _) => IssueStarts(cfg, s, a, c, k);
    case NumberedCall(_, _, _) => IssueStarts(cfg, s, a, c, k);
    case DispatchCall(o, email, code) => SendStarts(cfg, s, a, c, o, email, code);
    case LoginCall(p) => LoginBegins(cfg, s, c, a.email, a.password, p);
    case ResetCall(p) => ResetBegins(cfg, s, c, a.token, a.password, p);
  }

  lemma CallWasStarted(cfg: Config, s: State, a: Action, s': State, c: nat)
    requires Inv(cfg, s) && EntersOrStays(cfg, s, a, s') && c in s'.calls && IsStarted(s'.calls[c])
    requires !(c in s.calls && s.calls[c] == s'.calls[c])
    ensures StartsCall(cfg, s, a, c, s'.calls[c])
  {
    assert Enters(cfg, s, a, c, s'.calls[c]);
    match s'.calls[c]
    case RegisterCall(_, _) =>
    case AskCall(_, _) =>
    case NumberedCall(_, _, _) =>
    case DispatchCall(_, _, _) => InsertAccepted(cfg, s, c);
    case LoginCall(p) => LoginBegins(cfg, s, c, a.email, a.password, p);
    case ResetCall(p) => ResetBegins(cfg, s, c, a.token, a.password, p);
    case _ =>
  }

  /** A call of these kinds that was not there before is there after an action if and only if the action starts it. */
  lemma CallExactly(cfg: Config, s: State, a: Action, c: nat, k: Call)
    requires Inv(cfg, s) && IsStarted(k) && !(c in s.calls && s.calls[c] == k)
    ensures c in Step(cfg, s, a).calls && Step(cfg, s, a).calls[c] == k <==> StartsCall(cfg, s, a, c, k)
  {
    if StartsCall(cfg, s, a, c, k) {
      CallStarts(cfg, s, a, c, k);
    } else if c in Step(cfg, s, a).calls && Step(cfg, s, a).calls[c] == k {
      CallsEnter(cfg, s, a);
      CallWasStarted(cfg, s, a, Step(cfg, s, a), c);
    }
  }
}
