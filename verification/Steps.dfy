/** Every action keeps every fact and undoes nothing: one short proof per kind of action. */
module Steps {
  import opened Prelude
  import opened Schema
  import opened Sessions
  import opened Auth
  import opened Otps
  import opened Deletion
  import PasswordRecovery
  import opened Accounts
  import opened Outbox
  import opened System
  import opened Invariants

  // ------------------------------------------------------------------------------------------ single tables

  /** A write to a users row that leaves names, deletion and registration alone and never lowers the rank. */
  predicate Harmless(was: User, row: User) {
    && row.username == was.username && row.normalised == was.normalised && row.email == was.email
    && row.registeredAt == was.registeredAt && row.deletedAt == was.deletedAt
    && was.status.Rank() <= row.status.Rank() && (row.status == Deleted ==> was.status == Deleted)
  }

  lemma StatusUntouched(users: map<Id, User>, past: History, u: Id, row: User)
    requires u in users && Harmless(users[u], row) && UsersHold(users, past)
    ensures UsersHold(users[u := row], past)
  {
    assert users[u := row].Keys == users.Keys;
    assert row.status == Deleted <==> users[u].status == Deleted;
  }

  lemma RowEvolves(users: map<Id, User>, u: Id, row: User)
    requires u in users && Harmless(users[u], row)
    ensures UsersEvolve(users, users[u := row])
  {
  }

  lemma UserTouched(cfg: Config, s: State, s': State, u: Id, row: User)
    requires Inv(cfg, s) && u in s.t.users && Harmless(s.t.users[u], row)
    requires s'.t.users == s.t.users[u := row]
    requires s'.past.registered == s.past.registered && s'.past.finished == s.past.finished
    ensures UsersGood(cfg, s, s')
  {
    assert PartOk(s.t, UsersPart) && Holds(cfg, s, NamesFact) && Holds(cfg, s, UsersFact);
    RowKeepsNamesDistinct(s.t.users, u, row);
    StatusUntouched(s.t.users, s.past, u, row);
    RowEvolves(s.t.users, u, row);
  }

  lemma CutKeepsSessions(cfg: Config, sessions: map<Id, Session>, issued: map<Id, string>, owners: set<Id>, u: Id,
                         at: Time)
    requires SessionsOk(owners, sessions) && SessionsHold(cfg, sessions, issued)
    ensures SessionsOk(owners, SessionsCut(sessions, u, at))
    ensures SessionsHold(cfg, SessionsCut(sessions, u, at), issued)
    ensures SessionsEvolve(sessions, SessionsCut(sessions, u, at))
  {
    assert SessionsCut(sessions, u, at).Keys == sessions.Keys;
  }

  lemma SessionsCutFine(cfg: Config, s: State, s': State, u: Id, at: Time)
    requires Inv(cfg, s)
    requires s'.t.sessions == SessionsCut(s.t.sessions, u, at) && s'.past.issued == s.past.issued
    requires s.t.users.Keys == s'.t.users.Keys
    ensures SessionsGood(cfg, s, s')
  {
    assert PartOk(s.t, SessionsPart) && Holds(cfg, s, SessionsFact);
    CutKeepsSessions(cfg, s.t.sessions, s.past.issued, s.t.users.Keys, u, at);
  }

  lemma RowEnded(cfg: Config, sessions: map<Id, Session>, issued: map<Id, string>, owners: set<Id>, i: Id, at: Time)
    requires SessionsOk(owners, sessions) && SessionsHold(cfg, sessions, issued)
    requires i in sessions && !sessions[i].invalidated
    ensures var sessions' := sessions[i := sessions[i].(invalidated := true, invalidatedAt := Some(at))];
            && SessionsOk(owners, sessions') && SessionsHold(cfg, sessions', issued)
            && SessionsEvolve(sessions, sessions')
  {
    assert sessions[i := sessions[i].(invalidated := true, invalidatedAt := Some(at))].Keys == sessions.Keys;
  }

  lemma SessionEnded(cfg: Config, s: State, s': State, i: Id, at: Time)
    requires Inv(cfg, s) && i in s.t.sessions && !s.t.sessions[i].invalidated
    requires s'.t.sessions == s.t.sessions[i := s.t.sessions[i].(invalidated := true, invalidatedAt := Some(at))]
    requires s'.past.issued == s.past.issued && s'.t.users == s.t.users
    ensures SessionsGood(cfg, s, s')
  {
    assert PartOk(s.t, SessionsPart) && Holds(cfg, s, SessionsFact);
    RowEnded(cfg, s.t.sessions, s.past.issued, s.t.users.Keys, i, at);
  }

  lemma SessionInserted(cfg: Config, sessions: map<Id, Session>, issued: map<Id, string>, i: Id, row: Session,
                        token: string)
    requires SessionsHold(cfg, sessions, issued) && i !in sessions
    requires row.tokenHash == cfg.sha(token) && !row.invalidated && row.invalidatedAt.None?
    ensures SessionsHold(cfg, sessions[i := row], issued[i := token])
    ensures SessionsEvolve(sessions, sessions[i := row])
  {
  }

  lemma SessionAdded(cfg: Config, s: State, s': State, i: Id, row: Session, token: string)
    requires Inv(cfg, s) && i !in s.t.sessions && row.userId in s.t.users
    requires forall r | r in s.t.sessions :: s.t.sessions[r].tokenHash != row.tokenHash
    requires row.tokenHash == cfg.sha(token) && !row.invalidated && row.invalidatedAt.None?
    requires s'.t.sessions == s.t.sessions[i := row] && s'.past.issued == s.past.issued[i := token]
    requires s.t.users.Keys <= s'.t.users.Keys
    ensures SessionsGood(cfg, s, s')
  {
    assert PartOk(s.t, SessionsPart) && Holds(cfg, s, SessionsFact);
    SessionInserted(cfg, s.t.sessions, s.past.issued, i, row, token);
    SessionsStayOk(s.t.users.Keys, s'.t.users.Keys, s.t.sessions, InsertSession(i, row));
  }

  /** One users row changes and nothing else, except which calls wait. */
  lemma OnlyUserTouched(cfg: Config, s: State, s': State, u: Id, row: User)
    requires Inv(cfg, s) && u in s.t.users && Harmless(s.t.users[u], row)
    requires s'.t == s.t.(users := s.t.users[u := row]) && s'.past == s.past
    requires CallsGood(s, s')
    ensures Good(cfg, s, s')
  {
    UserTouched(cfg, s, s', u, row);
    Assemble(cfg, s, s');
  }

  // Steps that touch one other table.

  lemma OtpsAlone(cfg: Config, s: State, s': State)
    requires Inv(cfg, s) && CallsGood(s, s')
    requires s'.t == s.t.(otps := s'.t.otps) && s'.past == s.past.(born := s'.past.born) && OtpsGood(s, s')
    ensures Good(cfg, s, s')
  {
    Assemble(cfg, s, s');
  }

  lemma SessionsAlone(cfg: Config, s: State, s': State)
    requires Inv(cfg, s) && CallsGood(s, s')
    requires s'.t == s.t.(sessions := s'.t.sessions) && s'.past == s.past.(issued := s'.past.issued)
    requires SessionsGood(cfg, s, s')
    ensures Good(cfg, s, s')
  {
    Assemble(cfg, s, s');
  }

  lemma RecoveriesAlone(cfg: Config, s: State, s': State)
    requires Inv(cfg, s) && CallsGood(s, s')
    requires s'.t == s.t.(recoveries := s'.t.recoveries) && s'.past == s.past && RecoveriesGood(s, s')
    ensures Good(cfg, s, s')
  {
    Assemble(cfg, s, s');
  }

  // ------------------------------------------------------------------------------------------------ actions

  /** Time passes, or a call starts to wait: the tables stay. */
  lemma NothingWritten(cfg: Config, s: State, s': State)
    requires Inv(cfg, s) && s'.t == s.t && s'.past == s.past && CallsGood(s, s')
    ensures Good(cfg, s, s')
  {
    Assemble(cfg, s, s');
  }

  lemma SuspendStep(cfg: Config, s: State, u: Id)
    requires Inv(cfg, s)
    ensures Good(cfg, s, AdminSuspends(s, u))
  {
    var s' := AdminSuspends(s, u);
    if Eligible(s.t, u) {
      OnlyUserTouched(cfg, s, s', u, Changed(s.t.users[u], Suspend));
    } else {
      NothingWritten(cfg, s, s');
    }
  }

  lemma UserInserted(users: map<Id, User>, past: History, id: Id, row: User)
    requires UsersDistinct(users) && UsersHold(users, past) && id !in users
    requires NamesFree(users, id, row.normalised, row.email) && row.status == Pending && row.deletedAt.None?
    ensures UsersDistinct(users[id := row])
    ensures UsersHold(users[id := row], past.(registered := past.registered[id := row.email]))
    ensures UsersEvolve(users, users[id := row])
  {
    assert id !in past.finished;
    RowKeepsNamesDistinct(users, id, row);
  }

  lemma NoticesOutlast(notices: map<Id, Notice>, past: History, id: Id, email: string)
    requires NoticesHold(notices, past) && id !in past.registered
    ensures NoticesHold(notices, past.(registered := past.registered[id := email]))
  {
  }

  lemma UserAdded(cfg: Config, s: State, s': State, id: Id, row: User)
    requires Inv(cfg, s) && id !in s.t.users && NamesFree(s.t.users, id, row.normalised, row.email)
    requires row.normalised == Normalised(cfg, row.username) && row.status == Pending && row.deletedAt.None?
    requires s'.t == s.t.(users := s.t.users[id := row])
    requires s'.past == s.past.(registered := s.past.registered[id := row.email])
    ensures UsersGood(cfg, s, s') && NoticesGood(s, s')
  {
    assert PartOk(s.t, UsersPart) && Holds(cfg, s, NamesFact) && Holds(cfg, s, UsersFact) && Holds(cfg, s, NoticesFact);
    UserInserted(s.t.users, s.past, id, row);
    NoticesOutlast(s.t.notices, s.past, id, row.email);
  }

  lemma RegisterStep(cfg: Config, s: State, call: nat, id: Id, hash: string)
    requires Inv(cfg, s) && call in s.calls && s.calls[call].RegisterCall?
    ensures Good(cfg, s, EndRegister(cfg, s, call, id, hash))
  {
    var s' := EndRegister(cfg, s, call, id, hash);
    var c := s.calls[call];
    if Registered(cfg, s.t, s.clock, id, c.username, c.email, hash).1 {
      UserAdded(cfg, s, s', id, NewUser(cfg, c.username, c.email, hash, s.clock));
      Assemble(cfg, s, s');
    } else {
      NothingWritten(cfg, s, s');
    }
  }

  lemma LoginStep(cfg: Config, s: State, call: nat, sid: Id, token: string)
    requires Inv(cfg, s) && call in s.calls && s.calls[call].LoginCall?
    ensures Good(cfg, s, FinishLogin(cfg, s, call, sid, token))
  {
    var s' := FinishLogin(cfg, s, call, sid, token);
    var a := s.calls[call].attempt;
    assert Holds(cfg, s, CallsFact);
    assert CallHolds(s.t, s.calls[call]);
    if a.matched {
      LoginSucceeds(cfg, s, call, sid, token);
    } else {
      OnlyUserTouched(cfg, s, s', a.userId, AfterFailure(cfg, s.t.users[a.userId], a.failures, s.clock));
    }
  }

  lemma LoginSucceeds(cfg: Config, s: State, call: nat, sid: Id, token: string)
    requires Inv(cfg, s) && call in s.calls && s.calls[call].LoginCall? && s.calls[call].attempt.matched
    requires s.calls[call].attempt.userId in s.t.users
    ensures Good(cfg, s, FinishLogin(cfg, s, call, sid, token))
  {
    var s' := FinishLogin(cfg, s, call, sid, token);
    var a := s.calls[call].attempt;
    var booked := s.t.users[a.userId].(failedLogins := 0, lastLoginAt := Some(s.clock));
    SuccessShape(cfg, s.t, s.clock, a, sid, token);
    if TokenFree(s.t, sid, cfg.sha(token)) {
      LoginStored(cfg, s, s', a.userId, booked, sid, NewSession(cfg, a.userId, token, s.clock), token);
    } else {
      OnlyUserTouched(cfg, s, s', a.userId, booked);
    }
  }

  lemma LoginStored(cfg: Config, s: State, s': State, u: Id, booked: User, sid: Id, row: Session, token: string)
    requires Inv(cfg, s) && u in s.t.users && Harmless(s.t.users[u], booked) && row.userId == u
    requires sid !in s.t.sessions && (forall r | r in s.t.sessions :: s.t.sessions[r].tokenHash != row.tokenHash)
    requires row.tokenHash == cfg.sha(token) && !row.invalidated && row.invalidatedAt.None?
    requires s'.t == s.t.(users := s.t.users[u := booked], sessions := s.t.sessions[sid := row])
    requires s'.past == s.past.(issued := s.past.issued[sid := token]) && CallsGood(s, s')
    ensures Good(cfg, s, s')
  {
    UserTouched(cfg, s, s', u, booked);
    SessionAdded(cfg, s, s', sid, row, token);
    Assemble(cfg, s, s');
  }

  lemma ValidateStep(cfg: Config, s: State, token: string)
    requires Inv(cfg, s)
    ensures Good(cfg, s, CheckSession(cfg, s, token))
  {
    var s' := CheckSession(cfg, s, token);
    if Validated(cfg, s.t, s.clock, token).1 == Invalid(AccountSuspended) {
      var i := SessionByHash(s.t, cfg.sha(token)).value;
      SessionsCutFine(cfg, s, s', s.t.sessions[i].userId, s.clock);
      SessionsAlone(cfg, s, s');
    } else {
      NothingWritten(cfg, s, s');
    }
  }

  lemma LogoutStep(cfg: Config, s: State, token: string)
    requires Inv(cfg, s)
    ensures Good(cfg, s, EndSession(cfg, s, token))
  {
    var s' := EndSession(cfg, s, token);
    if LoggedOut(cfg, s.t, s.clock, token).1 {
      NothingWritten(cfg, s, s');
    } else {
      SessionEnded(cfg, s, s', SessionByHash(s.t, cfg.sha(token)).value, s.clock);
      SessionsAlone(cfg, s, s');
    }
  }

  // --- passcodes

  lemma CutKeepsOrder(otps: map<Id, Otp>, born: map<Id, nat>, u: Id, at: Time)
    requires OtpsHold(otps, born)
    ensures OtpsHold(OtpsCut(otps, u, at), born)
  {
    var cut := OtpsCut(otps, u, at);
    assert cut.Keys == otps.Keys;
    forall o | o in cut && cut[o].invalidatedAt.None? ensures Newest(cut, born, o) {
      assert Newest(otps, born, o);
    }
  }

  lemma CutKeepsOtps(otps: map<Id, Otp>, owners: set<Id>, u: Id, at: Time)
    requires OtpsOk(owners, otps)
    ensures OtpsOk(owners, OtpsCut(otps, u, at)) && OtpsEvolve(otps, OtpsCut(otps, u, at))
    ensures NoActiveOtp(OtpsCut(otps, u, at), u)
  {
  }

  lemma OtpsCutFine(s: State, s': State, u: Id, at: Time)
    requires OtpsOk(s.t.users.Keys, s.t.otps) && OtpsHold(s.t.otps, s.past.born)
    requires s'.t.otps == OtpsCut(s.t.otps, u, at) && s'.past.born == s.past.born && s'.t.users == s.t.users
    ensures OtpsGood(s, s')
    ensures NoActiveOtp(s'.t.otps, u)
  {
    CutKeepsOrder(s.t.otps, s.past.born, u, at);
    CutKeepsOtps(s.t.otps, s.t.users.Keys, u, at);
  }

  lemma OtpAdded(otps: map<Id, Otp>, born: map<Id, nat>, owners: set<Id>, id: Id, row: Otp)
    requires OtpsOk(owners, otps) && OtpsHold(otps, born)
    requires id !in otps && row.userId in owners && NoActiveOtp(otps, row.userId)
    ensures OtpsOk(owners, otps[id := row]) && OtpsHold(otps[id := row], born[id := |born|])
    ensures OtpsEvolve(otps, otps[id := row])
  {
    OtpsStayOk(owners, owners, otps, InsertOtp(id, row));
    OtpIsNewest(otps, born, id, row);
  }

  lemma OtpIsNewest(otps: map<Id, Otp>, born: map<Id, nat>, id: Id, row: Otp)
    requires OtpsHold(otps, born) && id !in otps && NoActiveOtp(otps, row.userId)
    ensures OtpsHold(otps[id := row], born[id := |born|])
  {
    var otps', born' := otps[id := row], born[id := |born|];
    assert |born'| == |born| + 1;
    forall o | o in otps' && otps'[o].invalidatedAt.None? ensures Newest(otps', born', o) {
      assert o == id || Newest(otps, born, o);
    }
  }

  /** One passcode row changes its delivery status, or is invalidated for the first time. */
  lemma OtpTouched(s: State, s': State, o: Id, row: Otp)
    requires OtpsOk(s.t.users.Keys, s.t.otps) && OtpsHold(s.t.otps, s.past.born)
    requires o in s.t.otps && s'.t.otps == s.t.otps[o := row] && s'.past.born == s.past.born
    requires s'.t.users.Keys == s.t.users.Keys
    requires var was := s.t.otps[o];
             || row == was.(status := row.status)
             || (was.invalidatedAt.None? && row == was.(invalidatedAt := row.invalidatedAt))
    ensures OtpsGood(s, s')
  {
    assert s'.t.otps.Keys == s.t.otps.Keys;
    forall p | p in s'.t.otps && s'.t.otps[p].invalidatedAt.None? ensures Newest(s'.t.otps, s'.past.born, p) {
      assert Newest(s.t.otps, s.past.born, p);
    }
    assert OtpsOk(s.t.users.Keys, s'.t.otps);
  }

  lemma IssueStoreStep(cfg: Config, s: State, call: nat, code: string, id: Id)
    requires Inv(cfg, s) && call in s.calls && s.calls[call].IssueCall?
    ensures Good(cfg, s, StoreIssue(cfg, s, call, code, id))
  {
    var c := s.calls[call];
    StoreStep(cfg, s, StoreIssue(cfg, s, call, code, id), call, id,
              NextRow(cfg, Cleared(s.t, c.userId, s.clock), s.clock, c.userId, c.email, code), code);
  }

  lemma StoreStep(cfg: Config, s: State, s': State, call: nat, id: Id, row: Otp, code: string)
    requires Inv(cfg, s)
    requires var (t, stored) := Replaced(s.t, s.clock, id, row);
             s' == if stored.None? then Drop(s, call).(t := t)
                   else OtpStored(Park(s, call, DispatchCall(id, row.email, code)), t, id)
    ensures Good(cfg, s, s')
  {
    ReplacedFine(cfg, s, s', id, row);
    OtpsAlone(cfg, s, s');
  }

  lemma ReplacedFine(cfg: Config, s: State, s': State, id: Id, row: Otp)
    requires Inv(cfg, s)
    requires var r := Replaced(s.t, s.clock, id, row);
             s'.t == r.0 && s'.past.born == if r.1.Some? then s.past.born[id := |s.past.born|] else s.past.born
    ensures OtpsGood(s, s')
  {
    assert PartOk(s.t, OtpsPart) && Holds(cfg, s, OtpsFact);
    var cut := s.(t := Cleared(s.t, row.userId, s.clock));
    OtpsCutFine(s, cut, row.userId, s.clock);
    if Replaced(s.t, s.clock, id, row).1.Some? {
      OtpAdded(cut.t.otps, s.past.born, s.t.users.Keys, id, row);
      OtpsEvolveTwice(s.t.otps, cut.t.otps, s'.t.otps);
    }
  }

  lemma OtpsEvolveTwice(a: map<Id, Otp>, b: map<Id, Otp>, c: map<Id, Otp>)
    requires OtpsEvolve(a, b) && OtpsEvolve(b, c)
    ensures OtpsEvolve(a, c)
  {
  }

  lemma IssueClearStep(cfg: Config, s: State, call: nat)
    requires Inv(cfg, s) && call in s.calls && s.calls[call].IssueCall?
    ensures Good(cfg, s, ClearIssue(s, call))
  {
    var s' := ClearIssue(s, call);
    assert Holds(cfg, s, CallsFact);
    assert CallHolds(s.t, s.calls[call]);
    assert PartOk(s.t, OtpsPart) && Holds(cfg, s, OtpsFact);
    OtpsCutFine(s, s', s.calls[call].userId, s.clock);
    OtpsAlone(cfg, s, s');
  }

  lemma IssueInsertStep(cfg: Config, s: State, call: nat)
    requires Inv(cfg, s) && call in s.calls && s.calls[call].NumberedCall?
    ensures Good(cfg, s, InsertIssue(s, call))
  {
    var s' := InsertIssue(s, call);
    var c := s.calls[call];
    assert Holds(cfg, s, CallsFact);
    assert CallHolds(s.t, c);
    if InsertOk(s, c) {
      InsertStores(s, call);
      RowInserted(cfg, s, s', c.id, c.row);
      OtpsAlone(cfg, s, s');
    } else {
      InsertRefused(s, call);
      NothingWritten(cfg, s, s');
    }
  }

  /** The insert of a numbered passcode goes through. */
  ghost predicate InsertOk(s: State, c: Call)
    requires c.NumberedCall?
  {
    c.id !in s.t.otps && c.row.userId in s.t.users && NoActiveOtp(s.t.otps, c.row.userId)
  }

  lemma InsertStores(s: State, call: nat)
    requires call in s.calls && s.calls[call].NumberedCall? && InsertOk(s, s.calls[call])
    ensures var c := s.calls[call];
            InsertIssue(s, call)
            == OtpStored(Park(s, call, DispatchCall(c.id, c.row.email, c.code)), s.t.(otps := s.t.otps[c.id := c.row]),
                         c.id)
  {
  }

  lemma InsertRefused(s: State, call: nat)
    requires call in s.calls && s.calls[call].NumberedCall? && s.calls[call].row.invalidatedAt.None?
    requires !InsertOk(s, s.calls[call])
    ensures InsertIssue(s, call) == Drop(s, call)
  {
  }

  lemma RowInserted(cfg: Config, s: State, s': State, id: Id, row: Otp)
    requires Inv(cfg, s) && id !in s.t.otps && row.userId in s.t.users && NoActiveOtp(s.t.otps, row.userId)
    requires s'.t == s.t.(otps := s.t.otps[id := row]) && s'.past.born == s.past.born[id := |s.past.born|]
    ensures OtpsGood(s, s')
  {
    assert PartOk(s.t, OtpsPart) && Holds(cfg, s, OtpsFact);
    OtpAdded(s.t.otps, s.past.born, s.t.users.Keys, id, row);
  }

  lemma IssueMarkStep(cfg: Config, s: State, call: nat, delivered: bool)
    requires Inv(cfg, s) && call in s.calls && s.calls[call].DispatchCall?
    ensures Good(cfg, s, MarkIssue(s, call, delivered))
  {
    var s' := MarkIssue(s, call, delivered);
    var o := s.calls[call].otpId;
    if o in s.t.otps {
      assert PartOk(s.t, OtpsPart) && Holds(cfg, s, OtpsFact);
      OtpTouched(s, s', o, s'.t.otps[o]);
      OtpsAlone(cfg, s, s');
    } else {
      NothingWritten(cfg, s, s');
    }
  }

  lemma AcceptanceTouches(cfg: Config, s: State, s': State, u: Id, o: Id)
    requires Inv(cfg, s) && u in s.t.users && o in s.t.otps
    requires s.t.users[u].status.Rank() <= 1 && s.t.otps[o].invalidatedAt.None?
    requires s' == s.(t := OtpAccepted(s.t, u, o, s.clock))
    ensures UsersGood(cfg, s, s') && OtpsGood(s, s')
  {
    assert PartOk(s.t, OtpsPart) && Holds(cfg, s, OtpsFact);
    UserTouched(cfg, s, s', u, Changed(s.t.users[u], Activate(s.clock)));
    OtpTouched(s, s', o, s.t.otps[o].(invalidatedAt := Some(s.clock)));
  }

  lemma AcceptanceFine(cfg: Config, s: State, s': State, u: Id, o: Id)
    requires Inv(cfg, s) && u in s.t.users && o in s.t.otps
    requires s.t.users[u].status.Rank() <= 1 && s.t.otps[o].invalidatedAt.None?
    requires s' == s.(t := OtpAccepted(s.t, u, o, s.clock))
    ensures Good(cfg, s, s')
  {
    AcceptanceTouches(cfg, s, s', u, o);
    Assemble(cfg, s, s');
  }

  lemma VerifyStep(cfg: Config, s: State, u: Id, code: string, fault: int)
    requires Inv(cfg, s)
    ensures Good(cfg, s, SubmitOtp(cfg, s, u, code, fault))
  {
    var s' := SubmitOtp(cfg, s, u, code, fault);
    if Verified(cfg, s.t, s.clock, u, code, fault).1.Accepted? {
      AcceptanceFine(cfg, s, s', u, OtpOf(s.t, u).value);
    } else {
      NothingWritten(cfg, s, s');
    }
  }

  // --- activation tokens

  lemma AddTokenStep(cfg: Config, s: State, id: Id, row: ActivationToken)
    requires Inv(cfg, s)
    ensures Good(cfg, s, AddToken(s, id, row))
  {
    var s' := AddToken(s, id, row);
    if s' == s {
      NothingWritten(cfg, s, s');
    } else {
      assert PartOk(s.t, TokensPart);
      TokenAdded(s.t.tokens, s.t.users.Keys, id, row);
      Assemble(cfg, s, s');
    }
  }

  lemma TokenAdded(tokens: map<Id, ActivationToken>, owners: set<Id>, id: Id, row: ActivationToken)
    requires TokensOk(owners, tokens) && TokensAfter(owners, tokens, InsertToken(id, row)).Some?
    ensures TokensOk(owners, tokens[id := row]) && TokensEvolve(tokens, tokens[id := row])
  {
  }

  lemma TokenConsumed(tokens: map<Id, ActivationToken>, owners: set<Id>, k: Id, at: Time)
    requires TokensOk(owners, tokens) && k in tokens && !tokens[k].consumed
    ensures var tokens' := tokens[k := tokens[k].(consumed := true, consumedAt := Some(at))];
            TokensOk(owners, tokens') && TokensEvolve(tokens, tokens')
  {
  }

  lemma TokenSpentFine(cfg: Config, s: State, s': State, k: Id)
    requires Inv(cfg, s) && k in s.t.tokens && s.t.tokens[k].userId in s.t.users
    requires s.t.users[s.t.tokens[k].userId].status == Pending && !s.t.tokens[k].consumed
    requires s' == s.(t := TokenSpent(s.t, k, s.clock))
    ensures Good(cfg, s, s')
  {
    var u := s.t.tokens[k].userId;
    assert PartOk(s.t, TokensPart);
    UserTouched(cfg, s, s', u, Changed(s.t.users[u], Activate(s.clock)));
    TokenConsumed(s.t.tokens, s.t.users.Keys, k, s.clock);
    assert s'.t.users.Keys == s.t.users.Keys;
    Assemble(cfg, s, s');
  }

  lemma ActivateStep(cfg: Config, s: State, value: string, fault: int)
    requires Inv(cfg, s)
    ensures Good(cfg, s, SubmitToken(s, value, fault))
  {
    var s' := SubmitToken(s, value, fault);
    if Activation(s.t, s.clock, value, fault).1.Activated? {
      assert !s.t.tokens[TokenByValue(s.t, value).value].consumed;
      TokenSpentFine(cfg, s, s', TokenByValue(s.t, value).value);
    } else {
      NothingWritten(cfg, s, s');
    }
  }

  // --- deletion requests

  lemma RequestAdded(requests: map<Id, DeletionRequest>, finished: map<Id, (Id, Id)>, owners: set<Id>, id: Id,
                     row: DeletionRequest)
    requires RequestsOk(owners, requests) && RequestsHold(requests, finished)
    requires id !in requests && row.userId in owners && row.userId !in finished
    requires row.status == Waiting && row.confirmedAt.None? && row.cancelledAt.None?
    requires forall q | q in requests && requests[q].status == Waiting :: requests[q].userId != row.userId
    ensures RequestsOk(owners, requests[id := row]) && RequestsHold(requests[id := row], finished)
  {
  }

  lemma RequestStored(cfg: Config, s: State, s': State, id: Id, row: DeletionRequest)
    requires Inv(cfg, s) && id !in s.t.requests && RequestOf(s.t, row.userId).None?
    requires row.userId in s.t.users && s.t.users[row.userId].status == Active
    requires row.status == Waiting && row.confirmedAt.None? && row.cancelledAt.None?
    requires s' == s.(t := s.t.(requests := s.t.requests[id := row]))
    ensures RequestsGood(s, s')
  {
    assert PartOk(s.t, RequestsPart) && Holds(cfg, s, RequestsFact) && Holds(cfg, s, UsersFact);
    forall q | q in s.t.requests && s.t.requests[q].status == Waiting ensures s.t.requests[q].userId != row.userId {
      assert !WaitingRequest(s.t, row.userId, q);
    }
    RequestAdded(s.t.requests, s.past.finished, s.t.users.Keys, id, row);
  }

  lemma RequestStep(cfg: Config, s: State, u: Id, code: string, id: Id)
    requires Inv(cfg, s)
    ensures Good(cfg, s, AskDeletion(cfg, s, u, code, id))
  {
    var s' := AskDeletion(cfg, s, u, code, id);
    if DeletionRequested(cfg, s.t, s.clock, u, code, id).1.Requested? {
      RequestStored(cfg, s, s', id, s'.t.requests[id]);
      Assemble(cfg, s, s');
    } else {
      NothingWritten(cfg, s, s');
    }
  }

  lemma RequestCancelled(requests: map<Id, DeletionRequest>, finished: map<Id, (Id, Id)>, owners: set<Id>, r: Id,
                         at: Time)
    requires RequestsOk(owners, requests) && RequestsHold(requests, finished)
    requires r in requests && requests[r].status == Waiting
    ensures var requests' := requests[r := requests[r].(status := Cancelled, cancelledAt := Some(at))];
            && RequestsOk(owners, requests') && RequestsHold(requests', finished)
            && RequestsEvolve(requests, requests')
  {
  }

  lemma CancelStep(cfg: Config, s: State, u: Id)
    requires Inv(cfg, s)
    ensures Good(cfg, s, WithdrawDeletion(s, u))
  {
    var s' := WithdrawDeletion(s, u);
    if CancelledDeletion(s.t, s.clock, u).1 {
      assert PartOk(s.t, RequestsPart) && Holds(cfg, s, RequestsFact);
      RequestCancelled(s.t.requests, s.past.finished, s.t.users.Keys, RequestOf(s.t, u).value, s.clock);
      Assemble(cfg, s, s');
    } else {
      NothingWritten(cfg, s, s');
    }
  }

  // --- recovery

  lemma RecoveryAdded(recoveries: map<Id, Recovery>, owners: set<Id>, id: Id, row: Recovery)
    requires RecoveriesOk(owners, recoveries) && RecoveriesAfter(owners, recoveries, InsertRecovery(id, row)).Some?
    ensures RecoveriesOk(owners, recoveries[id := row]) && RecoveriesEvolve(recoveries, recoveries[id := row])
  {
  }

  lemma RecoveryStep(cfg: Config, s: State, email: string, token: string, id: Id)
    requires Inv(cfg, s)
    ensures Good(cfg, s, AskRecovery(cfg, s, email, token, id))
  {
    var s' := AskRecovery(cfg, s, email, token, id);
    if s' == s {
      NothingWritten(cfg, s, s');
    } else {
      assert PartOk(s.t, RecoveriesPart);
      RecoveryAdded(s.t.recoveries, s.t.users.Keys, id, s'.t.recoveries[id]);
      RecoveriesAlone(cfg, s, s');
    }
  }

  lemma RecoveryConsumed(recoveries: map<Id, Recovery>, owners: set<Id>, q: Id, row: Recovery)
    requires RecoveriesOk(owners, recoveries) && q in recoveries
    requires row == recoveries[q].(consumed := true, consumedAt := row.consumedAt)
    ensures RecoveriesOk(owners, recoveries[q := row]) && RecoveriesEvolve(recoveries, recoveries[q := row])
  {
  }

  lemma ReplacementFine(cfg: Config, s: State, s': State, a: PasswordRecovery.Attempt, hash: string)
    requires Inv(cfg, s) && a.userId in s.t.users && a.requestId in s.t.recoveries
    requires s'.t == PasswordRecovery.PasswordReplaced(s.t, a, hash) && s'.past == s.past && CallsGood(s, s')
    ensures Good(cfg, s, s')
  {
    UserTouched(cfg, s, s', a.userId, s.t.users[a.userId].(passwordHash := hash));
    assert s'.t.users.Keys == s.t.users.Keys;
    SessionsCutFine(cfg, s, s', a.userId, a.checkedAt);
    assert PartOk(s.t, RecoveriesPart);
    RecoveryConsumed(s.t.recoveries, s.t.users.Keys, a.requestId, s'.t.recoveries[a.requestId]);
    Assemble(cfg, s, s');
  }

  lemma ResetStep(cfg: Config, s: State, call: nat, hash: string, fault: int)
    requires Inv(cfg, s) && call in s.calls && s.calls[call].ResetCall?
    ensures Good(cfg, s, FinishReset(s, call, hash, fault))
  {
    var s' := FinishReset(s, call, hash, fault);
    var a := s.calls[call].reset;
    assert Holds(cfg, s, CallsFact);
    assert CallHolds(s.t, s.calls[call]);
    if !(0 <= fault < 3) {
      ReplacementFine(cfg, s, s', a, hash);
    } else {
      NothingWritten(cfg, s, s');
    }
  }

  // --- notices

  lemma NoticeTouched(notices: map<Id, Notice>, past: History, n: Id, row: Notice)
    requires NoticesHold(notices, past) && n in notices
    requires row == notices[n].(delivery := row.delivery, retries := row.retries) && notices[n].retries <= row.retries
    ensures NoticesHold(notices[n := row], past) && NoticesEvolve(notices, notices[n := row])
  {
  }

  lemma SettleStep(cfg: Config, s: State, call: nat, delivered: bool)
    requires Inv(cfg, s) && call in s.calls && s.calls[call].NoticeCall?
    ensures Good(cfg, s, SettleNotice(cfg, s, call, delivered))
  {
    var s' := SettleNotice(cfg, s, call, delivered);
    assert Holds(cfg, s, CallsFact);
    var c := s.calls[call];
    assert CallHolds(s.t, c);
    if c.queue != [] {
      var n := c.queue[0];
      NoticeSettledGood(cfg, s, s', n, s'.t.notices[n]);
      assert CallHolds(s'.t, s'.calls[call]);
      Assemble(cfg, s, s');
    } else {
      NothingWritten(cfg, s, s');
    }
  }

  lemma NoticeSettledGood(cfg: Config, s: State, s': State, n: Id, row: Notice)
    requires Inv(cfg, s) && n in s.t.notices
    requires s'.t == s.t.(notices := s.t.notices[n := row]) && s'.past == s.past
    requires row == s.t.notices[n].(delivery := row.delivery, retries := row.retries)
    requires s.t.notices[n].retries <= row.retries
    ensures NoticesGood(s, s')
  {
    assert Holds(cfg, s, NoticesFact);
    NoticeTouched(s.t.notices, s.past, n, row);
  }

  // --- the four-table transaction

  lemma StatusErased(users: map<Id, User>, past: History, u: Id, row: User, mark: (Id, Id))
    requires UsersHold(users, past) && u in users && users[u].status != Deleted
    requires row.status == Deleted && row.deletedAt.Some?
    ensures UsersHold(users[u := row], past.(finished := past.finished[u := mark]))
  {
    var users' := users[u := row];
    assert users'.Keys == users.Keys;
  }

  lemma NormalisedErased(cfg: Config, users: map<Id, User>, u: Id, now: Time)
    requires NamesHold(cfg, users) && u in users
    ensures NamesHold(cfg, users[u := Erased(cfg, u, users[u], now)])
  {
    assert Plain(AnonymousName(u));
  }

  lemma ErasureEvolves(cfg: Config, users: map<Id, User>, u: Id, now: Time)
    requires u in users && users[u].status != Deleted && users[u].deletedAt.None?
    ensures UsersEvolve(users, users[u := Erased(cfg, u, users[u], now)])
  {
  }

  lemma UserErased(cfg: Config, s: State, s': State, u: Id, mark: (Id, Id))
    requires Inv(cfg, s) && u in s.t.users && s.t.users[u].status != Deleted
    requires NamesFree(s.t.users, u, cfg.lower(AnonymousName(u)), AnonymousEmail(u))
    requires s'.t.users == s.t.users[u := Erased(cfg, u, s.t.users[u], s.clock)]
    requires s'.past == s.past.(finished := s.past.finished[u := mark])
    ensures UsersGood(cfg, s, s')
  {
    assert PartOk(s.t, UsersPart) && Holds(cfg, s, NamesFact) && Holds(cfg, s, UsersFact);
    RowKeepsNamesDistinct(s.t.users, u, s'.t.users[u]);
    NormalisedErased(cfg, s.t.users, u, s.clock);
    StatusErased(s.t.users, s.past, u, s'.t.users[u], mark);
    ErasureEvolves(cfg, s.t.users, u, s.clock);
  }

  lemma RequestConfirmed(requests: map<Id, DeletionRequest>, finished: map<Id, (Id, Id)>, owners: set<Id>, r: Id,
                         noticeId: Id, at: Time)
    requires RequestsOk(owners, requests) && RequestsHold(requests, finished)
    requires r in requests && requests[r].status == Waiting
    ensures var requests' := requests[r := requests[r].(status := Confirmed, confirmedAt := Some(at))];
            && RequestsOk(owners, requests')
            && RequestsHold(requests', finished[requests[r].userId := (r, noticeId)])
            && RequestsEvolve(requests, requests')
  {
    var u := requests[r].userId;
    var row := requests[r].(status := Confirmed, confirmedAt := Some(at));
    var requests' := requests[r := row];
    var finished' := finished[u := (r, noticeId)];
    assert u !in finished;
    assert RequestsOk(owners, requests');
    forall v | v in finished'
      ensures finished'[v].0 in requests' && requests'[finished'[v].0].userId == v
           && requests'[finished'[v].0].status == Confirmed
    {
      assert v == u || v in finished;
    }
    forall q | q in requests && q != r ensures requests[q].status == Waiting ==> requests[q].userId != u {}
  }

  lemma NoticeQueued(notices: map<Id, Notice>, past: History, n: Id, r: Id, row: Notice)
    requires NoticesHold(notices, past) && n !in notices && row.userId !in past.finished
    requires row.userId in past.registered && row.recipient == past.registered[row.userId]
    ensures NoticesHold(notices[n := row], past.(finished := past.finished[row.userId := (r, n)]))
    ensures NoticesEvolve(notices, notices[n := row])
  {
  }

  /** s' is s with the deletion of u under request r committed. */
  ghost predicate DeletionCommits(cfg: Config, s: State, s': State, u: Id, r: Id, noticeId: Id) {
    && u in s.t.users && WaitingRequest(s.t, u, r) && CanFinalise(cfg, s.t, u, noticeId)
    && s' == s.(t := Finalised(cfg, s.t, u, r, noticeId, s.clock),
                past := s.past.(finished := s.past.finished[u := (r, noticeId)]))
  }

  lemma FinalisedUsers(cfg: Config, s: State, s': State, u: Id, r: Id, noticeId: Id)
    requires Inv(cfg, s) && DeletionCommits(cfg, s, s', u, r, noticeId)
    ensures UsersGood(cfg, s, s') && SessionsGood(cfg, s, s')
  {
    assert Holds(cfg, s, UsersFact) && Holds(cfg, s, RequestsFact);
    UserErased(cfg, s, s', u, (r, noticeId));
    assert s'.t.users.Keys == s.t.users.Keys;
    SessionsCutFine(cfg, s, s', u, s.clock);
  }

  lemma FinalisedRequests(cfg: Config, s: State, s': State, u: Id, r: Id, noticeId: Id)
    requires Inv(cfg, s) && DeletionCommits(cfg, s, s', u, r, noticeId)
    ensures RequestsGood(s, s')
  {
    assert Holds(cfg, s, RequestsFact) && PartOk(s.t, RequestsPart);
    assert s'.t.users.Keys == s.t.users.Keys;
    RequestConfirmed(s.t.requests, s.past.finished, s.t.users.Keys, r, noticeId, s.clock);
  }

  lemma FinalisedNotices(cfg: Config, s: State, s': State, u: Id, r: Id, noticeId: Id)
    requires Inv(cfg, s) && DeletionCommits(cfg, s, s', u, r, noticeId)
    ensures NoticesGood(s, s')
  {
    assert Holds(cfg, s, UsersFact) && Holds(cfg, s, RequestsFact) && Holds(cfg, s, NoticesFact);
    NoticeQueued(s.t.notices, s.past, noticeId, r, s'.t.notices[noticeId]);
  }

  lemma FinalisedFine(cfg: Config, s: State, s': State, u: Id, r: Id, noticeId: Id)
    requires Inv(cfg, s) && DeletionCommits(cfg, s, s', u, r, noticeId)
    ensures Good(cfg, s, s')
  {
    FinalisedUsers(cfg, s, s', u, r, noticeId);
    FinalisedRequests(cfg, s, s', u, r, noticeId);
    FinalisedNotices(cfg, s, s', u, r, noticeId);
    Assemble(cfg, s, s');
  }

  lemma ConfirmStep(cfg: Config, s: State, u: Id, code: string, noticeId: Id, fault: int)
    requires Inv(cfg, s)
    ensures Good(cfg, s, FinishDeletion(cfg, s, u, code, noticeId, fault))
  {
    var s' := FinishDeletion(cfg, s, u, code, noticeId, fault);
    if ConfirmedDeletion(cfg, s.t, s.clock, u, code, noticeId, fault).1.Finished? {
      FinalisedFine(cfg, s, s', u, RequestOf(s.t, u).value, noticeId);
    } else {
      NothingWritten(cfg, s, s');
    }
  }

  // --------------------------------------------------------------------------------------------------- runs

  /** Actions that write no table: the clock, and calls that only start to wait. */
  predicate OnlyParks(a: Action) {
    a.Advance? || a.RegisterBegin? || a.IssueBegin? || a.IssueAsk? || a.IssueArm? || a.IssueNumber? || a.LoginBegin?
    || a.ResetBegin? || a.NoticeTick?
  }

  lemma CallStarts(cfg: Config, s: State, call: nat, c: Call)
    requires Inv(cfg, s) && CallHolds(s.t, c)
    ensures Good(cfg, s, Park(s, call, c))
  {
    NothingWritten(cfg, s, Park(s, call, c));
  }

  lemma IssueBeginStep(cfg: Config, s: State, call: nat, u: Id)
    requires Inv(cfg, s)
    ensures Good(cfg, s, BeginIssue(s, call, u))
  {
    if Gated(s.t, u).MayIssue? {
      CallStarts(cfg, s, call, AskCall(u, Gated(s.t, u).email));
    }
    NothingWritten(cfg, s, s);
  }

  lemma IssueAskStep(cfg: Config, s: State, call: nat)
    requires Inv(cfg, s) && call in s.calls && s.calls[call].AskCall?
    ensures Good(cfg, s, AskIssue(cfg, s, call))
  {
    assert Holds(cfg, s, CallsFact);
    assert CallHolds(s.t, s.calls[call]);
    NothingWritten(cfg, s, AskIssue(cfg, s, call));
  }

  lemma IssueArmStep(cfg: Config, s: State, call: nat)
    requires Inv(cfg, s) && call in s.calls && s.calls[call].ArmCall?
    ensures Good(cfg, s, ArmIssue(cfg, s, call))
  {
    assert Holds(cfg, s, CallsFact);
    assert CallHolds(s.t, s.calls[call]);
    NothingWritten(cfg, s, ArmIssue(cfg, s, call));
  }

  lemma IssueNumberStep(cfg: Config, s: State, call: nat, code: string, id: Id)
    requires Inv(cfg, s) && call in s.calls && s.calls[call].ClearedCall?
    ensures Good(cfg, s, NumberIssue(cfg, s, call, code, id))
  {
    assert Holds(cfg, s, CallsFact);
    var c := s.calls[call];
    assert CallHolds(s.t, c);
    CallStarts(cfg, s, call, NumberedCall(id, NextRow(cfg, s.t, s.clock, c.userId, c.email, code), code));
  }

  lemma LoginBeginStep(cfg: Config, s: State, call: nat, email: string, password: string)
    requires Inv(cfg, s)
    ensures Good(cfg, s, BeginLogin(cfg, s, call, email, password))
  {
    var r := Begun(cfg, s.t, s.clock, email, password);
    if r.Comparing? {
      CallStarts(cfg, s, call, LoginCall(r.attempt));
    }
    NothingWritten(cfg, s, s);
  }

  lemma ResetBeginStep(cfg: Config, s: State, call: nat, token: string, password: string)
    requires Inv(cfg, s)
    ensures Good(cfg, s, BeginReset(cfg, s, call, token, password))
  {
    var r := PasswordRecovery.ResetBegun(cfg, s.t, s.clock, token, password);
    if r.Hashing? {
      assert PartOk(s.t, RecoveriesPart);
      CallStarts(cfg, s, call, ResetCall(r.attempt));
    }
    NothingWritten(cfg, s, s);
  }

  lemma TickBeginStep(cfg: Config, s: State, call: nat, queue: seq<Id>)
    requires Inv(cfg, s)
    ensures Good(cfg, s, BeginTick(s, call, queue))
  {
    if IsQueue(s.t.notices, queue) {
      CallStarts(cfg, s, call, NoticeCall(queue, map r | r in s.t.notices :: s.t.notices[r].retries));
    }
    NothingWritten(cfg, s, s);
  }

  lemma ParkingStep(cfg: Config, s: State, a: Action)
    requires Inv(cfg, s) && OnlyParks(a) && Step(cfg, s, a) != s
    ensures Good(cfg, s, Step(cfg, s, a))
  {
    match a
    case Advance(_) => NothingWritten(cfg, s, Step(cfg, s, a));
    case RegisterBegin(call, username, email) => CallStarts(cfg, s, call, RegisterCall(username, email));
    case IssueBegin(call, u) => IssueBeginStep(cfg, s, call, u);
    case IssueAsk(call) => IssueAskStep(cfg, s, call);
    case IssueArm(call) => IssueArmStep(cfg, s, call);
    case IssueNumber(call, code, id) => IssueNumberStep(cfg, s, call, code, id);
    case LoginBegin(call, email, password) => LoginBeginStep(cfg, s, call, email, password);
    case ResetBegin(call, token, password) => ResetBeginStep(cfg, s, call, token, password);
    case NoticeTick(call, queue) => TickBeginStep(cfg, s, call, queue);
  }

  /** Every action, from any state in which the facts hold, keeps them all and undoes nothing. */
  lemma StepGood(cfg: Config, s: State, a: Action)
    requires Inv(cfg, s)
    ensures Good(cfg, s, Step(cfg, s, a))
  {
    if Step(cfg, s, a) == s {
      EvolvesReflexive(s.t);
    } else if OnlyParks(a) {
      ParkingStep(cfg, s, a);
    } else if ResumesIssue(a) {
      IssuingStep(cfg, s, a);
    } else {
      WritingStep(cfg, s, a);
    }
  }

  predicate ResumesIssue(a: Action) {
    a.IssueStore? || a.IssueClear? || a.IssueInsert? || a.IssueMark?
  }

  lemma IssuingStep(cfg: Config, s: State, a: Action)
    requires Inv(cfg, s) && ResumesIssue(a) && Step(cfg, s, a) != s
    ensures Good(cfg, s, Step(cfg, s, a))
  {
    match a
    case IssueStore(call, code, id) => IssueStoreStep(cfg, s, call, code, id);
    case IssueClear(call) => IssueClearStep(cfg, s, call);
    case IssueInsert(call) => IssueInsertStep(cfg, s, call);
    case IssueMark(call, delivered) => IssueMarkStep(cfg, s, call, delivered);
  }

  lemma WritingStep(cfg: Config, s: State, a: Action)
    requires Inv(cfg, s) && !OnlyParks(a) && !ResumesIssue(a) && Step(cfg, s, a) != s
    ensures Good(cfg, s, Step(cfg, s, a))
  {
    match a
    case SuspendUser(u) => SuspendStep(cfg, s, u);
    case RegisterEnd(call, id, hash) => RegisterStep(cfg, s, call, id, hash);
    case VerifyOtp(u, code, fault) => VerifyStep(cfg, s, u, code, fault);
    case AddActivationToken(id, row) => AddTokenStep(cfg, s, id, row);
    case ActivateAccount(value, fault) => ActivateStep(cfg, s, value, fault);
    case LoginFinish(call, sid, token) => LoginStep(cfg, s, call, sid, token);
    case ValidateSession(token) => ValidateStep(cfg, s, token);
    case Logout(token) => LogoutStep(cfg, s, token);
    case RequestDeletion(u, code, id) => RequestStep(cfg, s, u, code, id);
    case ConfirmDeletion(u, code, noticeId, fault) => ConfirmStep(cfg, s, u, code, noticeId, fault);
    case CancelDeletion(u) => CancelStep(cfg, s, u);
    case RequestRecovery(email, token, id) => RecoveryStep(cfg, s, email, token, id);
    case ResetFinish(call, hash, fault) => ResetStep(cfg, s, call, hash, fault);
    case NoticeSettle(call, delivered) => SettleStep(cfg, s, call, delivered);
  }

  lemma InitialHolds(cfg: Config, start: Time)
    ensures Inv(cfg, Initial(start))
  {
    forall p ensures PartOk(EMPTY, p) {}
    forall f ensures Holds(cfg, Initial(start), f) {}
  }

  /** Every run from a good state ends in one, and undoes nothing on the way. */
  lemma {:induction false} RunGood(cfg: Config, s: State, run: seq<Action>)
    requires Inv(cfg, s)
    ensures Good(cfg, s, After(cfg, s, run)) && s.clock <= After(cfg, s, run).clock
  {
    if run == [] {
      EvolvesReflexive(s.t);
    } else {
      var before := After(cfg, s, run[..|run| - 1]);
      RunGood(cfg, s, run[..|run| - 1]);
      StepGood(cfg, before, run[|run| - 1]);
      ClockForward(cfg, before, run[|run| - 1]);
      EvolvesTransitive(s.t, before.t, After(cfg, s, run).t);
    }
  }

  lemma ClockForward(cfg: Config, s: State, a: Action)
    ensures s.clock <= Step(cfg, s, a).clock
  {
  }

  /** The facts hold in every reachable state. */
  lemma Reachable(cfg: Config, start: Time, run: seq<Action>)
    ensures Inv(cfg, After(cfg, Initial(start), run))
  {
    InitialHolds(cfg, start);
    RunGood(cfg, Initial(start), run);
  }
}
