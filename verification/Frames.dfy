/** What a step leaves alone, and how a call can come to wait: the facts the theorems about runs share. */
module Frames {
  import opened Prelude
  import opened Schema
  import opened Auth
  import opened Otps
  import opened Deletion
  import PasswordRecovery
  import opened Accounts
  import opened Outbox
  import opened System

  // --------------------------------------------------------------------------------------- quiet actions

  /** Failure counters and locks stay; a new account has neither. */
  ghost predicate CountersKept(a: map<Id, User>, b: map<Id, User>) {
    && (forall u | u in a ::
          u in b && b[u].failedLogins == a[u].failedLogins && b[u].lockedUntil == a[u].lockedUntil)
    && (forall u | u in b && u !in a :: b[u].failedLogins == 0)
  }

  /** Calls may have ended; none has started or changed. */
  ghost predicate CallsShrink(a: map<nat, Call>, b: map<nat, Call>) {
    forall c | c in b :: c in a && b[c] == a[c]
  }

  ghost predicate Quiet(s: State, s': State) {
    && CountersKept(s.t.users, s'.t.users) && CallsShrink(s.calls, s'.calls)
    && s'.t.otps.Keys == s.t.otps.Keys && s'.t.notices == s.t.notices
  }

  predicate AccountAction(a: Action) {
    a.SuspendUser? || a.RegisterEnd? || a.VerifyOtp? || a.AddActivationToken? || a.ActivateAccount?
  }

  predicate SessionAction(a: Action) {
    a.IssueMark? || a.ValidateSession? || a.Logout? || a.ResetFinish? || a.RequestRecovery?
  }

  predicate RequestAction(a: Action) {
    a.Advance? || a.RequestDeletion? || a.CancelDeletion?
  }

  /** Actions that leave counters, waiting calls, notices and the set of passcodes alone. */
  predicate IsQuiet(a: Action) {
    AccountAction(a) || SessionAction(a) || RequestAction(a)
  }

  lemma SuspendQuiet(s: State, u: Id)
    ensures Quiet(s, AdminSuspends(s, u))
  {
  }

  lemma RegisterQuiet(cfg: Config, s: State, call: nat, id: Id, hash: string)
    requires call in s.calls && s.calls[call].RegisterCall?
    ensures Quiet(s, EndRegister(cfg, s, call, id, hash))
  {
  }

  lemma VerifyQuiet(cfg: Config, s: State, u: Id, code: string, fault: int)
    ensures Quiet(s, SubmitOtp(cfg, s, u, code, fault))
  {
    if Verified(cfg, s.t, s.clock, u, code, fault).1.Accepted? {
      AcceptedQuiet(s.t, u, OtpOf(s.t, u).value, s.clock);
    }
  }

  lemma AcceptedQuiet(t: Tables, u: Id, o: Id, now: Time)
    requires u in t.users && o in t.otps
    ensures var t' := OtpAccepted(t, u, o, now);
            && CountersKept(t.users, t'.users) && t'.otps.Keys == t.otps.Keys && t'.notices == t.notices
  {
  }

  lemma AddTokenQuiet(s: State, id: Id, row: ActivationToken)
    ensures Quiet(s, AddToken(s, id, row))
  {
  }

  lemma ActivateQuiet(s: State, value: string, fault: int)
    ensures Quiet(s, SubmitToken(s, value, fault))
  {
  }

  lemma AccountsQuiet(cfg: Config, s: State, a: Action)
    requires AccountAction(a)
    ensures Quiet(s, Step(cfg, s, a))
  {
    match a
    case SuspendUser(u) => SuspendQuiet(s, u);
    case RegisterEnd(call, id, hash) =>
      if call in s.calls && s.calls[call].RegisterCall? {
        RegisterQuiet(cfg, s, call, id, hash);
      }
    case VerifyOtp(u, code, fault) => VerifyQuiet(cfg, s, u, code, fault);
    case AddActivationToken(id, row) => AddTokenQuiet(s, id, row);
    case ActivateAccount(value, fault) => ActivateQuiet(s, value, fault);
  }

  lemma MarkQuiet(s: State, call: nat, delivered: bool)
    requires call in s.calls && s.calls[call].DispatchCall?
    ensures Quiet(s, MarkIssue(s, call, delivered))
  {
  }

  lemma ValidateQuiet(cfg: Config, s: State, token: string)
    ensures Quiet(s, CheckSession(cfg, s, token))
  {
  }

  lemma LogoutQuiet(cfg: Config, s: State, token: string)
    ensures Quiet(s, EndSession(cfg, s, token))
  {
  }

  lemma ResetQuiet(s: State, call: nat, hash: string, fault: int)
    requires call in s.calls && s.calls[call].ResetCall?
    ensures Quiet(s, FinishReset(s, call, hash, fault))
  {
  }

  lemma RecoveryQuiet(cfg: Config, s: State, email: string, token: string, id: Id)
    ensures Quiet(s, AskRecovery(cfg, s, email, token, id))
  {
  }

  lemma RecoveriesQuiet(cfg: Config, s: State, a: Action)
    requires a.ResetFinish? || a.RequestRecovery?
    ensures Quiet(s, Step(cfg, s, a))
  {
    match a
    case ResetFinish(call, hash, fault) =>
      if call in s.calls && s.calls[call].ResetCall? {
        ResetQuiet(s, call, hash, fault);
      }
    case RequestRecovery(email, token, id) => RecoveryQuiet(cfg, s, email, token, id);
  }

  lemma SessionsQuiet(cfg: Config, s: State, a: Action)
    requires SessionAction(a)
    ensures Quiet(s, Step(cfg, s, a))
  {
    if a.ResetFinish? || a.RequestRecovery? {
      RecoveriesQuiet(cfg, s, a);
    } else {
      match a
      case IssueMark(call, delivered) =>
        if call in s.calls && s.calls[call].DispatchCall? {
          MarkQuiet(s, call, delivered);
        }
      case ValidateSession(token) => ValidateQuiet(cfg, s, token);
      case Logout(token) => LogoutQuiet(cfg, s, token);
    }
  }

  lemma RequestQuiet(cfg: Config, s: State, u: Id, code: string, id: Id)
    ensures Quiet(s, AskDeletion(cfg, s, u, code, id))
  {
  }

  lemma CancelQuiet(s: State, u: Id)
    ensures Quiet(s, WithdrawDeletion(s, u))
  {
  }

  lemma RequestsQuiet(cfg: Config, s: State, a: Action)
    requires RequestAction(a)
    ensures Quiet(s, Step(cfg, s, a))
  {
    match a
    case Advance(_) =>
    case RequestDeletion(u, code, id) => RequestQuiet(cfg, s, u, code, id);
    case CancelDeletion(u) => CancelQuiet(s, u);
  }

  lemma QuietStep(cfg: Config, s: State, a: Action)
    requires IsQuiet(a)
    ensures Quiet(s, Step(cfg, s, a))
  {
    if AccountAction(a) {
      AccountsQuiet(cfg, s, a);
    } else if SessionAction(a) {
      SessionsQuiet(cfg, s, a);
    } else {
      RequestsQuiet(cfg, s, a);
    }
  }

  // --------------------------------------------------------------------------------- the other actions

  /** A deletion is quiet but for the one notice it may queue. */
  lemma DeletionFrame(cfg: Config, s: State, u: Id, code: string, noticeId: Id, fault: int)
    ensures var s' := FinishDeletion(cfg, s, u, code, noticeId, fault);
            && CountersKept(s.t.users, s'.t.users) && s'.calls == s.calls && s'.t.otps == s.t.otps
           
            && (s'.t.notices == s.t.notices
                || (noticeId !in s.t.notices && s'.t.notices.Keys == s.t.notices.Keys + {noticeId}
                    && s'.t.notices == s.t.notices[noticeId := s'.t.notices[noticeId]]
                    && s'.t.notices[noticeId].retries == 0 && s'.t.notices[noticeId].delivery == Queued))
  {
    if ConfirmedDeletion(cfg, s.t, s.clock, u, code, noticeId, fault).1.Finished? {
      var r := RequestOf(s.t, u).value;
      assert FinishDeletion(cfg, s, u, code, noticeId, fault).t == Finalised(cfg, s.t, u, r, noticeId, s.clock);
    }
  }

  /** A login that ends touches one account's row, perhaps a new session, and its own call. */
  lemma LoginFrame(cfg: Config, s: State, call: nat, sid: Id, token: string)
    requires call in s.calls && s.calls[call].LoginCall?
    ensures var s', a := FinishLogin(cfg, s, call, sid, token), s.calls[call].attempt;
            && s'.calls == s.calls - {call} && s'.t.otps == s.t.otps && s'.t.notices == s.t.notices
            && s'.t.users.Keys == s.t.users.Keys
            && (forall u | u in s.t.users && u != a.userId :: s'.t.users[u] == s.t.users[u])
            && (a.userId in s.t.users ==>
                  s'.t.users[a.userId] == if a.matched then
                    s.t.users[a.userId].(failedLogins := 0, lastLoginAt := Some(s.clock))
                  else AfterFailure(cfg, s.t.users[a.userId], a.failures, s.clock))
  {
    var a := s.calls[call].attempt;
    if a.userId in s.t.users && a.matched {
      SuccessShape(cfg, s.t, s.clock, a, sid, token);
    }
  }

  /** A call that starts to wait leaves the tables alone and takes its own place only. */
  ghost predicate OneCallChanges(s: State, s': State, call: nat) {
    && s'.t == s.t && s'.past == s.past && s'.clock == s.clock
    && (forall c | c in s'.calls && c != call :: c in s.calls && s'.calls[c] == s.calls[c])
    && (forall c | c in s.calls && c != call :: c in s'.calls)
  }

  predicate ParksIssue(a: Action) {
    a.IssueBegin? || a.IssueAsk? || a.IssueArm? || a.IssueNumber?
  }

  predicate ParksOther(a: Action) {
    a.RegisterBegin? || a.LoginBegin? || a.ResetBegin? || a.NoticeTick?
  }

  predicate Parks(a: Action) {
    ParksIssue(a) || ParksOther(a)
  }

  lemma ParksIssueFrame(cfg: Config, s: State, a: Action)
    requires ParksIssue(a)
    ensures OneCallChanges(s, Step(cfg, s, a), a.call)
  {
  }

  lemma ParksOtherFrame(cfg: Config, s: State, a: Action)
    requires ParksOther(a)
    ensures OneCallChanges(s, Step(cfg, s, a), a.call)
  {
  }

  lemma ParksFrame(cfg: Config, s: State, a: Action)
    requires Parks(a)
    ensures OneCallChanges(s, Step(cfg, s, a), a.call)
  {
    if ParksIssue(a) {
      ParksIssueFrame(cfg, s, a);
    } else {
      ParksOtherFrame(cfg, s, a);
    }
  }

  /** An issue that resumes touches the passcodes of its user and its own call. */
  ghost predicate OtpsOnly(s: State, s': State, call: nat) {
    && s'.t == s.t.(otps := s'.t.otps) && s'.clock == s.clock
    && (forall c | c in s'.calls && c != call :: c in s.calls && s'.calls[c] == s.calls[c])
    && (forall c | c in s.calls && c != call :: c in s'.calls)
  }

  lemma StoreFrame(cfg: Config, s: State, call: nat, code: string, id: Id)
    requires call in s.calls && s.calls[call].IssueCall?
    ensures OtpsOnly(s, StoreIssue(cfg, s, call, code, id), call)
  {
    var c := s.calls[call];
    var row := NextRow(cfg, Cleared(s.t, c.userId, s.clock), s.clock, c.userId, c.email, code);
    ReplacedFrame(s.t, s.clock, id, row);
  }

  lemma ReplacedFrame(t: Tables, now: Time, id: Id, row: Otp)
    ensures Replaced(t, now, id, row).0 == t.(otps := Replaced(t, now, id, row).0.otps)
    ensures Replaced(t, now, id, row).1.Some? ==> Replaced(t, now, id, row).1 == Some(id)
  {
    var cut := Cleared(t, row.userId, now);
    assert cut == t.(otps := cut.otps);
  }

  lemma ClearFrame(s: State, call: nat)
    requires call in s.calls && s.calls[call].IssueCall?
    ensures OtpsOnly(s, ClearIssue(s, call), call)
    ensures ClearIssue(s, call).t.otps.Keys == s.t.otps.Keys
  {
  }

  lemma InsertFrame(s: State, call: nat)
    requires call in s.calls && s.calls[call].NumberedCall?
    ensures OtpsOnly(s, InsertIssue(s, call), call)
  {
  }

  lemma SettleFrame(cfg: Config, s: State, call: nat, delivered: bool)
    requires call in s.calls && s.calls[call].NoticeCall?
    ensures var s' := SettleNotice(cfg, s, call, delivered);
            && s'.t == s.t.(notices := s'.t.notices) && s'.clock == s.clock
            && (forall c | c in s'.calls && c != call :: c in s.calls && s'.calls[c] == s.calls[c])
            && (forall c | c in s.calls && c != call :: c in s'.calls)
  {
  }

  predicate Issues(a: Action) {
    a.IssueStore? || a.IssueClear? || a.IssueInsert?
  }

  lemma IssueFrame(cfg: Config, s: State, a: Action)
    requires Issues(a)
    ensures OtpsOnly(s, Step(cfg, s, a), a.call)
  {
    match a
    case IssueStore(call, code, id) =>
      if call in s.calls && s.calls[call].IssueCall? {
        StoreFrame(cfg, s, call, code, id);
      }
    case IssueClear(call) =>
      if call in s.calls && s.calls[call].IssueCall? {
        ClearFrame(s, call);
      }
    case IssueInsert(call) =>
      if call in s.calls && s.calls[call].NumberedCall? {
        InsertFrame(s, call);
      }
  }

  // ------------------------------------------------------------------------- how a call comes to wait

  /** Action `a` can put the value `k` at call id `c`. */
  ghost predicate Enters(cfg: Config, s: State, a: Action, c: nat, k: Call) {
    match k
    case RegisterCall(username, email) =>
      && a.RegisterBegin? && a.call == c && c !in s.calls && a.username == username && a.email == email
      && !NameHeld(s.t, Normalised(cfg, username))
    case AskCall(u, email) =>
      a.IssueBegin? && a.call == c && c !in s.calls && a.u == u && Eligible(s.t, u) && email == s.t.users[u].email
    case ArmCall(u, email, _) => a.IssueAsk? && a.call == c && c in s.calls && s.calls[c] == AskCall(u, email)
    case IssueCall(u, email) =>
      && (a.IssueAsk? || a.IssueArm?) && a.call == c && c in s.calls
      && (s.calls[c] == AskCall(u, email) || s.calls[c] == ArmCall(u, email, true))
    case ClearedCall(u, email) => a.IssueClear? && a.call == c && c in s.calls && s.calls[c] == IssueCall(u, email)
    case NumberedCall(id, row, code) =>
      && a.IssueNumber? && a.call == c && c in s.calls && s.calls[c].ClearedCall? && a.id == id && a.code == code
      && row == NextRow(cfg, s.t, s.clock, s.calls[c].userId, s.calls[c].email, a.code)
    case DispatchCall(o, email, code) =>
      || (a.IssueStore? && a.call == c && a.id == o && a.code == code && c in s.calls && s.calls[c].IssueCall?
          && s.calls[c].email == email && o !in s.t.otps && s.calls[c].userId in s.t.users)
      || (a.IssueInsert? && a.call == c && c in s.calls && s.calls[c].NumberedCall? && s.calls[c].id == o
          && s.calls[c].code == code && s.calls[c].row.email == email
          && Exec(s.t, InsertOtp(o, s.calls[c].row)).Some?)
    case LoginCall(p) =>
      a.LoginBegin? && a.call == c && c !in s.calls
      && Begun(cfg, s.t, s.clock, a.email, a.password) == Comparing(p)
    case ResetCall(p) =>
      a.ResetBegin? && a.call == c && c !in s.calls
      && PasswordRecovery.ResetBegun(cfg, s.t, s.clock, a.token, a.password) == PasswordRecovery.Hashing(p)
    case NoticeCall(q, read) =>
      || (a.NoticeTick? && a.call == c && c !in s.calls && IsQueue(s.t.notices, q))
      || (a.NoticeSettle? && a.call == c && c in s.calls && s.calls[c].NoticeCall?)
  }

  ghost predicate EntersOrStays(cfg: Config, s: State, a: Action, s': State) {
    forall c | c in s'.calls :: (c in s.calls && s'.calls[c] == s.calls[c]) || Enters(cfg, s, a, c, s'.calls[c])
  }

  lemma ParksIssueEnter(cfg: Config, s: State, a: Action)
    requires ParksIssue(a)
    ensures EntersOrStays(cfg, s, a, Step(cfg, s, a))
  {
    match a
    case IssueBegin(_, _) =>
    case IssueAsk(_) =>
    case IssueArm(_) =>
    case IssueNumber(_, _, _) =>
  }

  lemma ParksOtherEnter(cfg: Config, s: State, a: Action)
    requires ParksOther(a)
    ensures EntersOrStays(cfg, s, a, Step(cfg, s, a))
  {
    match a
    case RegisterBegin(_, _, _) =>
    case LoginBegin(_, _, _) =>
    case ResetBegin(_, _, _) =>
    case NoticeTick(_, _) =>
  }

  lemma StoreEnters(cfg: Config, s: State, call: nat, code: string, id: Id)
    requires call in s.calls && s.calls[call].IssueCall?
    ensures EntersOrStays(cfg, s, IssueStore(call, code, id), StoreIssue(cfg, s, call, code, id))
  {
  }

  lemma ClearEnters(cfg: Config, s: State, call: nat)
    requires call in s.calls && s.calls[call].IssueCall?
    ensures EntersOrStays(cfg, s, IssueClear(call), ClearIssue(s, call))
  {
  }

  lemma InsertEnters(cfg: Config, s: State, call: nat)
    requires call in s.calls && s.calls[call].NumberedCall?
    ensures EntersOrStays(cfg, s, IssueInsert(call), InsertIssue(s, call))
  {
  }

  lemma IssuesEnter(cfg: Config, s: State, a: Action)
    requires Issues(a)
    ensures EntersOrStays(cfg, s, a, Step(cfg, s, a))
  {
    match a
    case IssueStore(call, code, id) =>
      if call in s.calls && s.calls[call].IssueCall? {
        StoreEnters(cfg, s, call, code, id);
      }
    case IssueClear(call) =>
      if call in s.calls && s.calls[call].IssueCall? {
        ClearEnters(cfg, s, call);
      }
    case IssueInsert(call) =>
      if call in s.calls && s.calls[call].NumberedCall? {
        InsertEnters(cfg, s, call);
      }
  }

  /** Every waiting call was waiting before, or was just put there by the action for it. */
  lemma CallsEnter(cfg: Config, s: State, a: Action)
    ensures EntersOrStays(cfg, s, a, Step(cfg, s, a))
  {
    if IsQuiet(a) {
      QuietStep(cfg, s, a);
    } else if ParksIssue(a) {
      ParksIssueEnter(cfg, s, a);
    } else if ParksOther(a) {
      ParksOtherEnter(cfg, s, a);
    } else if Issues(a) {
      IssuesEnter(cfg, s, a);
    } else {
      RestEnter(cfg, s, a);
    }
  }

  lemma ShrinkEnters(cfg: Config, s: State, a: Action, s': State)
    requires CallsShrink(s.calls, s'.calls)
    ensures EntersOrStays(cfg, s, a, s')
  {
  }

  lemma SettleEnters(cfg: Config, s: State, call: nat, delivered: bool)
    requires call in s.calls && s.calls[call].NoticeCall?
    ensures EntersOrStays(cfg, s, NoticeSettle(call, delivered), SettleNotice(cfg, s, call, delivered))
  {
  }

  lemma LoginEndShrinks(cfg: Config, s: State, call: nat, sid: Id, token: string)
    requires call in s.calls && s.calls[call].LoginCall?
    ensures CallsShrink(s.calls, FinishLogin(cfg, s, call, sid, token).calls)
  {
    LoginFrame(cfg, s, call, sid, token);
  }

  lemma RestEnter(cfg: Config, s: State, a: Action)
    requires a.ConfirmDeletion? || a.LoginFinish? || a.NoticeSettle?
    ensures EntersOrStays(cfg, s, a, Step(cfg, s, a))
  {
    match a
    case ConfirmDeletion(u, code, noticeId, fault) =>
      DeletionFrame(cfg, s, u, code, noticeId, fault);
      ShrinkEnters(cfg, s, a, Step(cfg, s, a));
    case LoginFinish(call, sid, token) =>
      if call in s.calls && s.calls[call].LoginCall? {
        LoginEndShrinks(cfg, s, call, sid, token);
        ShrinkEnters(cfg, s, a, Step(cfg, s, a));
      }
    case NoticeSettle(call, delivered) =>
      if call in s.calls && s.calls[call].NoticeCall? {
        SettleEnters(cfg, s, call, delivered);
      }
  }

  // ------------------------------------------------------------------------------- passcodes and counters

  /** Only the two storing actions add passcode rows. */
  lemma OthersAddNoOtp(cfg: Config, s: State, a: Action)
    requires !a.IssueStore? && !a.IssueInsert?
    ensures Step(cfg, s, a).t.otps.Keys == s.t.otps.Keys
  {
    if IsQuiet(a) {
      QuietStep(cfg, s, a);
    } else if Parks(a) {
      ParksFrame(cfg, s, a);
    } else {
      match a
      case ConfirmDeletion(u, code, noticeId, fault) => DeletionFrame(cfg, s, u, code, noticeId, fault);
      case LoginFinish(call, sid, token) =>
        if call in s.calls && s.calls[call].LoginCall? {
          LoginFrame(cfg, s, call, sid, token);
        }
      case NoticeSettle(call, delivered) =>
        if call in s.calls && s.calls[call].NoticeCall? {
          SettleFrame(cfg, s, call, delivered);
        }
      case IssueClear(call) =>
        if call in s.calls && s.calls[call].IssueCall? {
          ClearFrame(s, call);
        }
    }
  }

  /** Only the end of a login changes failure counters and locks. */
  lemma OthersKeepCounters(cfg: Config, s: State, a: Action)
    requires !a.LoginFinish?
    ensures CountersKept(s.t.users, Step(cfg, s, a).t.users)
  {
    if IsQuiet(a) {
      QuietStep(cfg, s, a);
    } else if Parks(a) {
      ParksFrame(cfg, s, a);
    } else if Issues(a) {
      IssueFrame(cfg, s, a);
    } else {
      match a
      case ConfirmDeletion(u, code, noticeId, fault) => DeletionFrame(cfg, s, u, code, noticeId, fault);
      case NoticeSettle(call, delivered) =>
        if call in s.calls && s.calls[call].NoticeCall? {
          SettleFrame(cfg, s, call, delivered);
        }
    }
  }
}
