/**
 * Along whole runs: what is stored is what was asked for, and what was handed out (a code, a token, a password) is good
 * exactly as long, and exactly for whom, it should be.
 */
module RoundTrips {
  import opened Prelude
  import opened Schema
  import Sessions
  import Auth
  import PasswordRecovery
  import opened System
  import opened Invariants
  import opened Steps
  import opened Frames
  import opened Lifecycle
  import opened Passcodes
  import opened Rows
  import opened Replies

  // --------------------------------------------------------------------------------------------------- passwords

  /** The hash the run has last stored for u: that of its registration, or of the last reset since. */
  ghost function HashAlong(cfg: Config, start: Time, run: seq<Action>, u: Id): Option<string> {
    if run == [] then None
    else
      var s, a := At(cfg, start, run[..|run| - 1]), run[|run| - 1];
      if Registers(cfg, s, a, u) || (u in s.t.users && Resets(s, a, u)) then Some(a.hash)
      else HashAlong(cfg, start, run[..|run| - 1], u)
  }

  lemma HashAfterStep(cfg: Config, s: State, a: Action, u: Id)
    requires Inv(cfg, s)
    ensures var s' := Step(cfg, s, a);
            && (u in s'.t.users <==> u in s.t.users || Registers(cfg, s, a, u))
            && (u in s'.t.users ==>
                  s'.t.users[u].passwordHash == if Registers(cfg, s, a, u) || Resets(s, a, u) then a.hash
                                                else s.t.users[u].passwordHash)
  {
    UserExactly(cfg, s, a, u);
  }

  /** In every run, from the registration on: the stored hash is the one registered, or that of the last reset. */
  lemma {:induction false} HashInRuns(cfg: Config, start: Time, run: seq<Action>, u: Id)
    ensures var users := At(cfg, start, run).t.users;
            && (u in users <==> HashAlong(cfg, start, run, u).Some?)
            && (u in users ==> users[u].passwordHash == HashAlong(cfg, start, run, u).value)
  {
    if run != [] {
      var n := |run| - 1;
      HashInRuns(cfg, start, run[..n], u);
      Reachable(cfg, start, run[..n]);
      HashAfterStep(cfg, At(cfg, start, run[..n]), run[n], u);
    }
  }

  /**
   * From any reached state: a login with u's email gets to the comparison if and only if u is active and no lock is
   * running, and it will count as right if and only if the password matches the hash registered, or last reset.
   */
  lemma LoginComparesTheHash(cfg: Config, start: Time, run: seq<Action>, c: nat, email: string, password: string,
                             u: Id)
    requires Idle(At(cfg, start, run), c)
    ensures var s := At(cfg, start, run);
            var s' := At(cfg, start, run + [LoginBegin(c, email, password)]);
            && (LoginOn(s', c, u) <==> Comparable(s, email, u))
            && (LoginOn(s', c, u) ==>
                  && HashAlong(cfg, start, run, u).Some?
                  && s'.calls[c].attempt.matched == cfg.matches(password, HashAlong(cfg, start, run, u).value))
  {
    var s, a := At(cfg, start, run), LoginBegin(c, email, password);
    Reachable(cfg, start, run);
    HashInRuns(cfg, start, run, u);
    Next(cfg, start, run, a);
    if Comparable(s, email, u) {
      var p := Auth.Attempt(u, s.t.users[u].failedLogins, cfg.matches(password, s.t.users[u].passwordHash));
      CallExactly(cfg, s, a, c, LoginCall(p));
    }
    if LoginOn(Step(cfg, s, a), c, u) {
      CallExactly(cfg, s, a, c, Step(cfg, s, a).calls[c]);
    }
  }

  // --------------------------------------------------------------------------------------------------- sessions

  /** Action j of the run opened session i: its owner, its token, and how long it lives. */
  ghost predicate OpenedAt(cfg: Config, start: Time, run: seq<Action>, i: Id, j: nat) {
    && j < |run| && i in At(cfg, start, run).t.sessions
    && var s, row := At(cfg, start, run[..j]), At(cfg, start, run).t.sessions[i];
       && OpensSession(cfg, s, run[j], i)
       && row.userId == s.calls[run[j].call].attempt.userId && row.tokenHash == cfg.sha(run[j].token)
       && row.createdAt == s.clock && row.expiresAt == s.clock + cfg.sessionMs
  }

  lemma OpenedStill(cfg: Config, start: Time, run: seq<Action>, i: Id, j: nat)
    requires run != [] && OpenedAt(cfg, start, run[..|run| - 1], i, j)
    ensures OpenedAt(cfg, start, run, i, j)
  {
    var n := |run| - 1;
    assert run[..n][..j] == run[..j];
    Reachable(cfg, start, run[..n]);
    SessionExactly(cfg, At(cfg, start, run[..n]), run[n], i);
  }

  lemma OpenedNow(cfg: Config, start: Time, run: seq<Action>, i: Id)
    requires run != [] && i in At(cfg, start, run).t.sessions
    requires i !in At(cfg, start, run[..|run| - 1]).t.sessions
    ensures OpenedAt(cfg, start, run, i, |run| - 1)
  {
    var n := |run| - 1;
    Reachable(cfg, start, run[..n]);
    SessionExactly(cfg, At(cfg, start, run[..n]), run[n], i);
  }

  /** Every session was opened by a login with the right password, for that user, that token and the set lifetime. */
  lemma {:induction false} SessionOrigin(cfg: Config, start: Time, run: seq<Action>, i: Id)
    requires i in At(cfg, start, run).t.sessions
    ensures exists j: nat :: OpenedAt(cfg, start, run, i, j)
  {
    var n := |run| - 1;
    if i in At(cfg, start, run[..n]).t.sessions {
      SessionOrigin(cfg, start, run[..n], i);
      var j: nat :| OpenedAt(cfg, start, run[..n], i, j);
      OpenedStill(cfg, start, run, i, j);
    } else {
      OpenedNow(cfg, start, run, i);
    }
  }

  /**
   * A token handed out at time T validates in a later state if and only if it is presented before T + sessionMs, its
   * session has not been ended, and its owner is active; and it validates as that owner.
   */
  lemma SessionRoundTrip(cfg: Config, start: Time, run: seq<Action>, a: Action, more: seq<Action>, i: Id, v: Id)
    requires OpensSession(cfg, At(cfg, start, run), a, i)
    ensures var s, s' := At(cfg, start, run), At(cfg, start, run + [a] + more);
            var u := s.calls[a.call].attempt.userId;
            && Auth.Resumed(cfg, s.t, s.clock, s.calls[a.call].attempt, a.sid, a.token).1
               == Auth.LoggedIn(s.clock + cfg.sessionMs)
            && i in s'.t.sessions && u in s'.t.users
            && (Sessions.Validated(cfg, s'.t, s'.clock, a.token).1 == Sessions.Valid(v) <==>
                  v == u && s'.clock < s.clock + cfg.sessionMs && !s'.t.sessions[i].invalidated
                  && s'.t.users[u].status == Active)
  {
    var s, s1, s' := At(cfg, start, run), At(cfg, start, run + [a]), At(cfg, start, run + [a] + more);
    Reachable(cfg, start, run);
    Next(cfg, start, run, a);
    SessionExactly(cfg, s, a, i);
    LoginEndReplies(cfg, s, a.call, a.sid, a.token);
    Later(cfg, start, run + [a], more);
    assert TableEvolves(s1.t, s'.t, SessionTable);
    ValidateReplies(cfg, s', a.token, i);
  }

  // --------------------------------------------------------------------------------------------------- passcodes

  /** What a submission does: it uses up row o and activates the account, or leaves all tables alone. */
  ghost predicate Submitted(s: State, s': State, u: Id, o: Id, accepted: bool)
    requires o in s.t.otps && u in s.t.users
  {
    if accepted then
      && o in s'.t.otps && s'.t.otps[o] == s.t.otps[o].(invalidatedAt := Some(s.clock))
      && u in s'.t.users && s'.t.users[u] == s.t.users[u].(status := Active, activatedAt := Some(s.clock))
    else s'.t == s.t
  }

  lemma SubmissionExactly(cfg: Config, s: State, u: Id, x: string, fault: int, o: Id)
    requires Inv(cfg, s) && MaySubmit(s, u) && ActiveOtp(s.t, u, o)
    ensures var v := VerifyOtp(u, x, fault);
            var good := s.clock <= s.t.otps[o].expiresAt && cfg.hmac(x) == s.t.otps[o].codeHash && !(0 <= fault < 2);
            (AcceptedBy(cfg, s, v) == Some(o) <==> good) && Submitted(s, Step(cfg, s, v), u, o, good)
  {
    var v := VerifyOtp(u, x, fault);
    VerifyReplies(cfg, s, u, x, fault, o);
    VerifyFollows(cfg, s, u, x, fault);
    UserExactly(cfg, s, v, u);
    OtpExactly(cfg, s, v, o);
  }

  /** A submission is good for a row whose code was drawn as `code` at time `at`. */
  predicate GoodCode(cfg: Config, s: State, x: string, fault: int, code: string, at: Time) {
    cfg.hmac(x) == cfg.hmac(code) && s.clock <= at + cfg.otpTtlMs && !(0 <= fault < 2)
  }

  /** Row o carries the hash of this code and expires when it should, and stays so. */
  lemma CodeStays(cfg: Config, start: Time, run: seq<Action>, more: seq<Action>, o: Id, code: string, at: Time)
    requires var otps := At(cfg, start, run).t.otps;
             o in otps && otps[o].codeHash == cfg.hmac(code) && otps[o].expiresAt == at + cfg.otpTtlMs
    ensures var otps := At(cfg, start, run + more).t.otps;
            o in otps && otps[o].codeHash == cfg.hmac(code) && otps[o].expiresAt == at + cfg.otpTtlMs
    ensures Inv(cfg, At(cfg, start, run + more))
  {
    Later(cfg, start, run, more);
    assert TableEvolves(At(cfg, start, run).t, At(cfg, start, run + more).t, OtpTable);
  }

  /**
   * The code that was sent works, and no other: once a row has been stored with the code drawn at time T, as long as it
   * is active and its owner may submit, a submission is accepted if and only if its hash is that of the code, it comes
   * no later than T + otpTtlMs, and the transaction does not fail.
   */
  lemma PasscodeRoundTrip(cfg: Config, start: Time, run: seq<Action>, a: Action, more: seq<Action>, o: Id, u: Id,
                          x: string, fault: int)
    requires StoresFresh(At(cfg, start, run), a, o)
    requires var s' := At(cfg, start, run + [a] + more); ActiveOtp(s'.t, u, o) && MaySubmit(s', u)
    ensures var s, s' := At(cfg, start, run), At(cfg, start, run + [a] + more);
            var good := GoodCode(cfg, s', x, fault, a.code, s.clock);
            && (AcceptedBy(cfg, s', VerifyOtp(u, x, fault)) == Some(o) <==> good)
            && Submitted(s', Step(cfg, s', VerifyOtp(u, x, fault)), u, o, good)
  {
    var s := At(cfg, start, run);
    Reachable(cfg, start, run);
    Next(cfg, start, run, a);
    OtpExactly(cfg, s, a, o);
    CodeStays(cfg, start, run + [a], more, o, a.code, s.clock);
    SubmissionExactly(cfg, At(cfg, start, run + [a] + more), u, x, fault, o);
  }

  /** The row call c holds is the one drawn at action j. */
  ghost predicate HoldsDrawn(cfg: Config, start: Time, run: seq<Action>, c: nat, j: nat)
    requires j < |run| && run[j].IssueNumber?
  {
    && IsNumbered(At(cfg, start, run), c)
    && var k := At(cfg, start, run).calls[c];
       Draws(cfg, At(cfg, start, run[..j]), run[j], c, k.id, k.row, k.code)
  }

  lemma DrawnNow(cfg: Config, start: Time, run: seq<Action>, c: nat)
    requires run != [] && NumberedAt(cfg, start, run, c, |run| - 1)
    ensures HoldsDrawn(cfg, start, run, c, |run| - 1)
  {
    var n := |run| - 1;
    var s := At(cfg, start, run[..n]);
    assert run[..|run|] == run;
    Reachable(cfg, start, run[..n]);
    CallExactly(cfg, s, run[n], c, At(cfg, start, run).calls[c]);
  }

  lemma {:induction false} RowSinceDrawn(cfg: Config, start: Time, run: seq<Action>, c: nat, j: nat)
    requires NumberedAt(cfg, start, run, c, j)
    ensures HoldsDrawn(cfg, start, run, c, j)
    decreases |run|
  {
    var n := |run| - 1;
    var before := run[..n];
    if j == n {
      DrawnNow(cfg, start, run, c);
    } else {
      NumberedBefore(cfg, start, run, c, j);
      RowSinceDrawn(cfg, start, before, c, j);
      assert before[..j] == run[..j];
      assert run[..|run|] == run;
      RowKept(cfg, At(cfg, start, before), run[n], c);
    }
  }

  lemma NumberedBefore(cfg: Config, start: Time, run: seq<Action>, c: nat, j: nat)
    requires NumberedAt(cfg, start, run, c, j) && j < |run| - 1
    ensures NumberedAt(cfg, start, run[..|run| - 1], c, j)
  {
    var before := run[..|run| - 1];
    assert before[..j] == run[..j];
    forall i | j < i <= |before| ensures IsNumbered(At(cfg, start, before[..i]), c) {
      assert before[..i] == run[..i];
    }
  }

  /** The same for an issue that paused after each statement: T is when its row was drawn. */
  lemma PausedPasscodeRoundTrip(cfg: Config, start: Time, run: seq<Action>, a: Action, more: seq<Action>, j: nat, o: Id,
                                u: Id, x: string, fault: int)
    requires StoresDrawn(At(cfg, start, run), a, o) && NumberedAt(cfg, start, run, a.call, j)
    requires var s' := At(cfg, start, run + [a] + more); ActiveOtp(s'.t, u, o) && MaySubmit(s', u)
    ensures var s' := At(cfg, start, run + [a] + more);
            var good := GoodCode(cfg, s', x, fault, run[j].code, At(cfg, start, run[..j]).clock);
            && o == run[j].id
            && (AcceptedBy(cfg, s', VerifyOtp(u, x, fault)) == Some(o) <==> good)
            && Submitted(s', Step(cfg, s', VerifyOtp(u, x, fault)), u, o, good)
  {
    var s := At(cfg, start, run);
    Reachable(cfg, start, run);
    RowSinceDrawn(cfg, start, run, a.call, j);
    Next(cfg, start, run, a);
    OtpExactly(cfg, s, a, o);
    CodeStays(cfg, start, run + [a], more, o, run[j].code, At(cfg, start, run[..j]).clock);
    SubmissionExactly(cfg, At(cfg, start, run + [a] + more), u, x, fault, o);
  }

  /** The code a call holds is the one whose hash its row carries, and goes to the address in that row. */
  ghost predicate CodesAgree(cfg: Config, s: State, c: nat) {
    c in s.calls ==>
      match s.calls[c]
      case NumberedCall(_, row, code) => row.codeHash == cfg.hmac(code)
      case DispatchCall(o, email, code) =>
        o in s.t.otps && s.t.otps[o].codeHash == cfg.hmac(code) && s.t.otps[o].email == email
      case _ => true
  }

  lemma CodeSent(cfg: Config, s: State, a: Action, otps: map<Id, Otp>, c: nat, o: Id, email: string, code: string)
    requires CodesAgree(cfg, s, c) && Sends(s, a, c, o, email, code) && OtpFollows(cfg, s, a, otps, o)
    ensures o in otps && otps[o].codeHash == cfg.hmac(code) && otps[o].email == email
  {
  }

  lemma RowKeepsCode(cfg: Config, s: State, a: Action, otps: map<Id, Otp>, o: Id)
    requires o in s.t.otps && OtpFollows(cfg, s, a, otps, o)
    ensures o in otps && otps[o].codeHash == s.t.otps[o].codeHash && otps[o].email == s.t.otps[o].email
  {
  }

  lemma CodesKept(cfg: Config, s: State, a: Action, s': State, c: nat)
    requires CodesAgree(cfg, s, c) && c in s'.calls && (s'.calls[c].NumberedCall? || s'.calls[c].DispatchCall?)
    requires (c in s.calls && s.calls[c] == s'.calls[c]) || StartsCall(cfg, s, a, c, s'.calls[c])
    requires s'.calls[c].DispatchCall? ==> OtpFollows(cfg, s, a, s'.t.otps, s'.calls[c].otpId)
    ensures CodesAgree(cfg, s', c)
  {
    if s'.calls[c].DispatchCall? {
      if c in s.calls && s.calls[c] == s'.calls[c] {
        RowKeepsCode(cfg, s, a, s'.t.otps, s'.calls[c].otpId);
      } else {
        CodeSent(cfg, s, a, s'.t.otps, c, s'.calls[c].otpId, s'.calls[c].email, s'.calls[c].code);
      }
    }
  }

  lemma StepKeepsCodes(cfg: Config, s: State, a: Action, c: nat)
    requires Inv(cfg, s) && CodesAgree(cfg, s, c)
    ensures CodesAgree(cfg, Step(cfg, s, a), c)
  {
    var s' := Step(cfg, s, a);
    if c in s'.calls && (s'.calls[c].NumberedCall? || s'.calls[c].DispatchCall?) {
      if !(c in s.calls && s.calls[c] == s'.calls[c]) {
        CallExactly(cfg, s, a, c, s'.calls[c]);
      }
      if s'.calls[c].DispatchCall? {
        OtpExactly(cfg, s, a, s'.calls[c].otpId);
      }
      CodesKept(cfg, s, a, s', c);
    }
  }

  lemma {:induction false} SentCodeIsStored(cfg: Config, start: Time, run: seq<Action>, c: nat)
    ensures CodesAgree(cfg, At(cfg, start, run), c)
  {
    if run != [] {
      var n := |run| - 1;
      SentCodeIsStored(cfg, start, run[..n], c);
      Reachable(cfg, start, run[..n]);
      StepKeepsCodes(cfg, At(cfg, start, run[..n]), run[n], c);
    }
  }

  /**
   * In any reached state, the code on its way to an address is the one that works: while its row is active and the
   * owner may submit, submitting it is accepted if and only if the row has not expired and the transaction does not
   * fail.
   */
  lemma SentCodeWorks(cfg: Config, start: Time, run: seq<Action>, c: nat, u: Id, fault: int)
    requires var s := At(cfg, start, run);
             && c in s.calls && s.calls[c].DispatchCall? && ActiveOtp(s.t, u, s.calls[c].otpId) && MaySubmit(s, u)
    ensures var s := At(cfg, start, run);
            var o := s.calls[c].otpId;
            && s.t.otps[o].email == s.calls[c].email
            && (AcceptedBy(cfg, s, VerifyOtp(u, s.calls[c].code, fault)) == Some(o) <==>
                  s.clock <= s.t.otps[o].expiresAt && !(0 <= fault < 2))
  {
    var s := At(cfg, start, run);
    Reachable(cfg, start, run);
    SentCodeIsStored(cfg, start, run, c);
    SubmissionExactly(cfg, s, u, s.calls[c].code, fault, s.calls[c].otpId);
  }

  // ---------------------------------------------------------------------------------------------------- deletion

  /** From any reached state: exactly which actions delete an account. */
  lemma DeletedExactly(cfg: Config, start: Time, run: seq<Action>, a: Action, u: Id)
    requires var users := At(cfg, start, run).t.users; u in users && users[u].status != Deleted
    ensures var s, s' := At(cfg, start, run), At(cfg, start, run + [a]);
            u in s'.t.users && (s'.t.users[u].status == Deleted <==> exists r: Id :: Confirms(cfg, s, a, u, r))
  {
    Reachable(cfg, start, run);
    Next(cfg, start, run, a);
    UserExactly(cfg, At(cfg, start, run), a, u);
  }

  /** Action j of the run made request r, with this code, and set how long it is good. */
  ghost predicate AskedAt(cfg: Config, start: Time, run: seq<Action>, r: Id, j: nat) {
    && j < |run| && r in At(cfg, start, run).t.requests
    && var s, row := At(cfg, start, run[..j]), At(cfg, start, run).t.requests[r];
       && AsksDeletion(s, run[j], r)
       && row.userId == run[j].u && row.codeHash == cfg.hmac(run[j].code)
       && row.issuedAt == s.clock && row.expiresAt == s.clock + cfg.deletionTtlMs
  }

  lemma AskedStill(cfg: Config, start: Time, run: seq<Action>, r: Id, j: nat)
    requires run != [] && AskedAt(cfg, start, run[..|run| - 1], r, j)
    ensures AskedAt(cfg, start, run, r, j)
  {
    var n := |run| - 1;
    assert run[..n][..j] == run[..j];
    Reachable(cfg, start, run[..n]);
    RequestExactly(cfg, At(cfg, start, run[..n]), run[n], r);
  }

  lemma AskedNow(cfg: Config, start: Time, run: seq<Action>, r: Id)
    requires run != [] && r in At(cfg, start, run).t.requests
    requires r !in At(cfg, start, run[..|run| - 1]).t.requests
    ensures AskedAt(cfg, start, run, r, |run| - 1)
  {
    var n := |run| - 1;
    Reachable(cfg, start, run[..n]);
    RequestExactly(cfg, At(cfg, start, run[..n]), run[n], r);
  }

  /** Every deletion request was made by its user, then active, and carries the hash of the code drawn for it. */
  lemma {:induction false} RequestOrigin(cfg: Config, start: Time, run: seq<Action>, r: Id)
    requires r in At(cfg, start, run).t.requests
    ensures exists j: nat :: AskedAt(cfg, start, run, r, j)
  {
    var n := |run| - 1;
    if r in At(cfg, start, run[..n]).t.requests {
      RequestOrigin(cfg, start, run[..n], r);
      var j: nat :| AskedAt(cfg, start, run[..n], r, j);
      AskedStill(cfg, start, run, r, j);
    } else {
      AskedNow(cfg, start, run, r);
    }
  }

  /** No account is ever deleted but with the code drawn for a request of its user, and in time. */
  lemma DeletionNeedsItsCode(cfg: Config, start: Time, run: seq<Action>, a: Action, u: Id)
    requires var users := At(cfg, start, run).t.users; u in users && users[u].status != Deleted
    requires var users := At(cfg, start, run + [a]).t.users; u in users && users[u].status == Deleted
    ensures a.ConfirmDeletion? && a.u == u
    ensures exists j: nat, r: Id :: AskedAt(cfg, start, run, r, j) && run[j].u == u
              && cfg.hmac(a.code) == cfg.hmac(run[j].code)
              && At(cfg, start, run).clock <= At(cfg, start, run[..j]).clock + cfg.deletionTtlMs
  {
    DeletedExactly(cfg, start, run, a, u);
    var r: Id :| Confirms(cfg, At(cfg, start, run), a, u, r);
    RequestOrigin(cfg, start, run, r);
    var j: nat :| AskedAt(cfg, start, run, r, j);
  }

  /** Nothing stands in the way of anonymising u. */
  ghost predicate NothingInTheWay(cfg: Config, s: State, u: Id, noticeId: Id, fault: int) {
    && (forall v | v in s.t.users && v != u ::
          s.t.users[v].normalised != cfg.lower("deleted-user-" + u)
          && s.t.users[v].email != "deleted-" + u + "@deleted.invalid")
    && noticeId !in s.t.notices && !(0 <= fault < 4)
  }

  lemma WaitingOwner(cfg: Config, s: State, r: Id)
    requires Inv(cfg, s) && r in s.t.requests && s.t.requests[r].status == Waiting
    ensures var u := s.t.requests[r].userId; u in s.t.users && s.t.users[u].status != Deleted
    ensures forall q | q in s.t.requests && s.t.requests[q].status == Waiting
                       && s.t.requests[q].userId == s.t.requests[r].userId :: q == r
  {
    assert PartOk(s.t, RequestsPart);
    assert Holds(cfg, s, RequestsFact) && Holds(cfg, s, UsersFact);
  }

  /**
   * The code drawn for a deletion request works, and no other: while the request made at time T is pending, confirming
   * with x deletes the account if and only if the hash of x is that of the code, it comes no later than
   * T + deletionTtlMs, and nothing stands in the way.
   */
  lemma DeletionRoundTrip(cfg: Config, start: Time, run: seq<Action>, a: Action, more: seq<Action>, r: Id, x: string,
                          noticeId: Id, fault: int)
    requires AsksDeletion(At(cfg, start, run), a, r)
    requires var s' := At(cfg, start, run + [a] + more); r in s'.t.requests && s'.t.requests[r].status == Waiting
    ensures var s, s' := At(cfg, start, run), At(cfg, start, run + [a] + more);
            var end := Step(cfg, s', ConfirmDeletion(a.u, x, noticeId, fault));
            && a.u in s'.t.users && a.u in end.t.users
            && (end.t.users[a.u].status == Deleted <==>
                  && cfg.hmac(x) == cfg.hmac(a.code) && s'.clock <= s.clock + cfg.deletionTtlMs
                  && NothingInTheWay(cfg, s', a.u, noticeId, fault))
  {
    var s, s1, s' := At(cfg, start, run), At(cfg, start, run + [a]), At(cfg, start, run + [a] + more);
    Reachable(cfg, start, run);
    Next(cfg, start, run, a);
    RequestExactly(cfg, s, a, r);
    Later(cfg, start, run + [a], more);
    assert TableEvolves(s1.t, s'.t, RequestTable);
    WaitingOwner(cfg, s', r);
    ConfirmingExactly(cfg, s', a.u, x, noticeId, fault, r);
  }

  lemma ConfirmingExactly(cfg: Config, s: State, u: Id, x: string, noticeId: Id, fault: int, r: Id)
    requires Inv(cfg, s) && r in s.t.requests && s.t.requests[r].status == Waiting && s.t.requests[r].userId == u
    ensures u in s.t.users && u in Step(cfg, s, ConfirmDeletion(u, x, noticeId, fault)).t.users
    ensures Step(cfg, s, ConfirmDeletion(u, x, noticeId, fault)).t.users[u].status == Deleted <==>
            && cfg.hmac(x) == s.t.requests[r].codeHash && s.clock <= s.t.requests[r].expiresAt
            && NothingInTheWay(cfg, s, u, noticeId, fault)
  {
    var a := ConfirmDeletion(u, x, noticeId, fault);
    WaitingOwner(cfg, s, r);
    UserExactly(cfg, s, a, u);
    assert Confirms(cfg, s, a, u, r) <==>
      && cfg.hmac(x) == s.t.requests[r].codeHash && s.clock <= s.t.requests[r].expiresAt
      && NothingInTheWay(cfg, s, u, noticeId, fault);
    assert DeletesAccount(cfg, s, a, u) <==> Confirms(cfg, s, a, u, r);
  }

  // ---------------------------------------------------------------------------------------------------- recovery

  /** Action j of the run made recovery token q for the holder of the email, and set how long it is good. */
  ghost predicate TokenAskedAt(cfg: Config, start: Time, run: seq<Action>, q: Id, j: nat) {
    && j < |run| && q in At(cfg, start, run).t.recoveries
    && var s, row := At(cfg, start, run[..j]), At(cfg, start, run).t.recoveries[q];
       && AsksRecovery(s, run[j], q, row.userId) && row.token == run[j].token
       && row.requestedAt == s.clock && row.expiresAt == s.clock + cfg.recoveryTtlMs
  }

  lemma TokenAskedStill(cfg: Config, start: Time, run: seq<Action>, q: Id, j: nat)
    requires run != [] && TokenAskedAt(cfg, start, run[..|run| - 1], q, j)
    ensures TokenAskedAt(cfg, start, run, q, j)
  {
    var n := |run| - 1;
    assert run[..n][..j] == run[..j];
    Reachable(cfg, start, run[..n]);
    RecoveryExactly(cfg, At(cfg, start, run[..n]), run[n], q);
  }

  lemma TokenAskedNow(cfg: Config, start: Time, run: seq<Action>, q: Id)
    requires run != [] && q in At(cfg, start, run).t.recoveries
    requires q !in At(cfg, start, run[..|run| - 1]).t.recoveries
    ensures TokenAskedAt(cfg, start, run, q, |run| - 1)
  {
    var n := |run| - 1;
    var s, a := At(cfg, start, run[..n]), run[n];
    Reachable(cfg, start, run[..n]);
    RecoveryExactly(cfg, s, a, q);
    var u :| AsksRecovery(s, a, q, u);
  }

  /** Every recovery token was made for the account that held the email, and expires when it should. */
  lemma {:induction false} RecoveryOrigin(cfg: Config, start: Time, run: seq<Action>, q: Id)
    requires q in At(cfg, start, run).t.recoveries
    ensures exists j: nat :: TokenAskedAt(cfg, start, run, q, j)
  {
    var n := |run| - 1;
    if q in At(cfg, start, run[..n]).t.recoveries {
      RecoveryOrigin(cfg, start, run[..n], q);
      var j: nat :| TokenAskedAt(cfg, start, run[..n], q, j);
      TokenAskedStill(cfg, start, run, q, j);
    } else {
      TokenAskedNow(cfg, start, run, q);
    }
  }

  /** From any reached state: exactly which actions get a call past the check of recovery token q. */
  lemma ResettingExactly(cfg: Config, start: Time, run: seq<Action>, a: Action, c: nat, q: Id)
    requires !Resetting(At(cfg, start, run), c, q)
    ensures var s, s' := At(cfg, start, run), At(cfg, start, run + [a]);
            && (Resetting(s', c, q) <==>
                  && a.ResetBegin? && a.call == c && Idle(s, c) && HasRecovery(s, q, a.token)
                  && !s.t.recoveries[q].consumed && s.clock <= s.t.recoveries[q].expiresAt && cfg.policy(a.password))
            && (Resetting(s', c, q) ==> s'.calls[c].reset.checkedAt == s.clock)
  {
    var s := At(cfg, start, run);
    Reachable(cfg, start, run);
    Next(cfg, start, run, a);
    if a.ResetBegin? && HasRecovery(s, q, a.token) {
      CallExactly(cfg, s, a, c, ResetCall(PasswordRecovery.Attempt(q, s.t.recoveries[q].userId, s.clock)));
    }
    if Resetting(Step(cfg, s, a), c, q) {
      CallExactly(cfg, s, a, c, Step(cfg, s, a).calls[c]);
    }
  }

  /** A reset that is hashing was past its check in time. */
  lemma {:induction false} ChecksWereInTime(cfg: Config, start: Time, run: seq<Action>, c: nat, q: Id)
    requires Resetting(At(cfg, start, run), c, q)
    ensures var s := At(cfg, start, run);
            && q in s.t.recoveries && s.t.recoveries[q].expiresAt == s.t.recoveries[q].requestedAt + cfg.recoveryTtlMs
            && s.calls[c].reset.checkedAt <= s.t.recoveries[q].requestedAt + cfg.recoveryTtlMs
  {
    var s := At(cfg, start, run);
    Reachable(cfg, start, run);
    assert Holds(cfg, s, CallsFact);
    assert CallHolds(s.t, s.calls[c]);
    RecoveryOrigin(cfg, start, run, q);
    if run != [] {
      ChecksStayInTime(cfg, start, run, c, q);
    }
  }

  lemma {:induction false} ChecksStayInTime(cfg: Config, start: Time, run: seq<Action>, c: nat, q: Id)
    requires run != [] && Resetting(At(cfg, start, run), c, q) && q in At(cfg, start, run).t.recoveries
    ensures var s := At(cfg, start, run); s.calls[c].reset.checkedAt <= s.t.recoveries[q].expiresAt
    decreases |run|
  {
    var n := |run| - 1;
    var s, s', a := At(cfg, start, run[..n]), At(cfg, start, run), run[n];
    Reachable(cfg, start, run[..n]);
    RecoveryExactly(cfg, s, a, q);
    CallsEnter(cfg, s, a);
    if c in s.calls && s.calls[c] == s'.calls[c] {
      assert Holds(cfg, s, CallsFact);
      assert CallHolds(s.t, s.calls[c]);
      if n > 0 {
        ChecksStayInTime(cfg, start, run[..n], c, q);
      }
    } else {
      CallExactly(cfg, s, a, c, s'.calls[c]);
    }
  }

  /** So no reset commits whose check came later than recoveryTtlMs after its token was asked for. */
  lemma NoLateReset(cfg: Config, start: Time, run: seq<Action>, a: Action, q: Id)
    requires UsesRecovery(At(cfg, start, run), a, q)
    ensures var s := At(cfg, start, run);
            && q in s.t.recoveries
            && s.calls[a.call].reset.checkedAt <= s.t.recoveries[q].requestedAt + cfg.recoveryTtlMs
  {
    ChecksWereInTime(cfg, start, run, a.call, q);
  }

  /**
   * A recovery token asked for at time T gets an idle call past the check if and only if it has not been used up, it
   * comes no later than T + recoveryTtlMs, and the new password is acceptable.
   */
  lemma RecoveryRoundTrip(cfg: Config, start: Time, run: seq<Action>, a: Action, more: seq<Action>, q: Id, u: Id,
                          c: nat, password: string)
    requires AsksRecovery(At(cfg, start, run), a, q, u) && Idle(At(cfg, start, run + [a] + more), c)
    ensures var s, s' := At(cfg, start, run), At(cfg, start, run + [a] + more);
            var end := At(cfg, start, run + [a] + more + [ResetBegin(c, a.token, password)]);
            && q in s'.t.recoveries && s'.t.recoveries[q].userId == u
            && (Resetting(end, c, q) <==>
                  !s'.t.recoveries[q].consumed && s'.clock <= s.clock + cfg.recoveryTtlMs && cfg.policy(password))
  {
    var s, s1, s' := At(cfg, start, run), At(cfg, start, run + [a]), At(cfg, start, run + [a] + more);
    Reachable(cfg, start, run);
    Next(cfg, start, run, a);
    RecoveryExactly(cfg, s, a, q);
    Later(cfg, start, run + [a], more);
    assert TableEvolves(s1.t, s'.t, RecoveryTable);
    ResettingExactly(cfg, start, run + [a] + more, ResetBegin(c, a.token, password), c, q);
  }
}
