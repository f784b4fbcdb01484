/** What calls that were in flight do when a deletion, a reset or another issue gets in between. */
module Overlaps {
  import opened Prelude
  import opened Schema
  import opened Sessions
  import opened Auth
  import opened Otps
  import opened Deletion
  import opened System
  import opened Invariants
  import opened Steps
  import opened Frames
  import opened Lifecycle
  import opened Limits
  import opened Passcodes
  import opened Rows

  lemma AfterTwo(cfg: Config, s: State, a: Action, b: Action)
    ensures After(cfg, s, [a, b]) == Step(cfg, Step(cfg, s, a), b)
  {
    assert [a, b][..1] == [a] && [a][..0] == [];
    assert After(cfg, s, [a]) == Step(cfg, s, a);
  }

  lemma AfterThree(cfg: Config, s: State, a: Action, b: Action, c: Action)
    ensures After(cfg, s, [a, b, c]) == Step(cfg, Step(cfg, Step(cfg, s, a), b), c)
  {
    AfterTwo(cfg, s, a, b);
    assert [a, b, c][..2] == [a, b];
  }

  // -------------------------------------------------------------------------- a run with a repeated number

  function Admission(c: nat): seq<Action> {
    [IssueAsk(c), IssueArm(c)]
  }

  function Admissions(c: nat, d: nat, e: nat): seq<Action> {
    Admission(c) + Admission(d) + Admission(e)
  }

  /** Two of three issues clear and take a number, and the third clears between their inserts. */
  function Collision(c: nat, d: nat, e: nat, code: string, a: Id, b: Id): seq<Action> {
    [IssueClear(c), IssueClear(d)] + [IssueNumber(c, code, a), IssueNumber(d, code, b)]
    + [IssueInsert(c), IssueClear(e), IssueInsert(d)]
  }

  /** Three issues for one user begin, are let through, and collide. */
  function Interleaving(u: Id, c: nat, d: nat, e: nat, code: string, a: Id, b: Id): seq<Action> {
    [IssueBegin(c, u), IssueBegin(d, u), IssueBegin(e, u)] + Admissions(c, d, e) + Collision(c, d, e, code, a, b)
  }

  lemma BeginParks(cfg: Config, s: State, c: nat, u: Id)
    requires Eligible(s.t, u) && Idle(s, c)
    ensures Step(cfg, s, IssueBegin(c, u)) == Park(s, c, AskCall(u, s.t.users[u].email))
  {
  }

  lemma ThreeBegin(cfg: Config, s: State, u: Id, c: nat, d: nat, e: nat)
    requires Eligible(s.t, u) && Idle(s, c) && Idle(s, d) && Idle(s, e) && c != d && c != e && d != e
    ensures var k := AskCall(u, s.t.users[u].email);
            After(cfg, s, [IssueBegin(c, u), IssueBegin(d, u), IssueBegin(e, u)])
            == s.(calls := s.calls[c := k][d := k][e := k])
  {
    AfterThree(cfg, s, IssueBegin(c, u), IssueBegin(d, u), IssueBegin(e, u));
    BeginParks(cfg, s, c, u);
    var k := AskCall(u, s.t.users[u].email);
    BeginParks(cfg, Park(s, c, k), d, u);
    BeginParks(cfg, Park(Park(s, c, k), d, k), e, u);
  }

  /** After an admission: one call is let through, nothing else has happened, and there is room for n more. */
  ghost predicate LetThrough(cfg: Config, s: State, s': State, u: Id, email: string, c: nat, n: nat) {
    && s'.t == s.t && s'.clock == s.clock && s'.calls == s.calls[c := IssueCall(u, email)]
    && LimitSound(cfg, s', u) && RoomFor(cfg, s', u, n)
  }

  lemma AdmissionRuns(cfg: Config, s: State, u: Id, email: string, c: nat, n: nat)
    requires c in s.calls && s.calls[c] == AskCall(u, email) && n >= 1 && LimitSound(cfg, s, u) && RoomFor(cfg, s, u, n)
    ensures LetThrough(cfg, s, After(cfg, s, Admission(c)), u, email, c, n - 1)
  {
    AfterTwo(cfg, s, IssueAsk(c), IssueArm(c));
    AdmittedWithRoom(cfg, s, c, n);
  }

  lemma ThreeAdmitted(cfg: Config, s: State, u: Id, email: string, c: nat, d: nat, e: nat)
    requires c != d && c != e && d != e && c in s.calls && d in s.calls && e in s.calls
    requires s.calls[c] == AskCall(u, email) && s.calls[d] == s.calls[c] && s.calls[e] == s.calls[c]
    requires LimitSound(cfg, s, u) && RoomFor(cfg, s, u, 3)
    ensures var k, s' := IssueCall(u, email), After(cfg, s, Admissions(c, d, e));
            s'.t == s.t && s'.clock == s.clock && s'.calls == s.calls[c := k][d := k][e := k]
  {
    AfterConcat(cfg, s, Admission(c) + Admission(d), Admission(e));
    AfterConcat(cfg, s, Admission(c), Admission(d));
    AdmissionRuns(cfg, s, u, email, c, 3);
    var s1 := After(cfg, s, Admission(c));
    AdmissionRuns(cfg, s1, u, email, d, 2);
    AdmissionRuns(cfg, After(cfg, s1, Admission(d)), u, email, e, 1);
  }

  lemma ClearRuns(cfg: Config, s: State, e: nat)
    requires e in s.calls && s.calls[e].IssueCall?
    ensures var u := s.calls[e].userId;
            var s' := Step(cfg, s, IssueClear(e));
            && s'.t == s.t.(otps := OtpsCut(s.t.otps, u, s.clock)) && s'.t.otps.Keys == s.t.otps.Keys
            && s'.calls == s.calls[e := ClearedCall(u, s.calls[e].email)] && NoActiveOtp(s'.t.otps, u)
            && s'.clock == s.clock
  {
  }

  lemma TwoClear(cfg: Config, s: State, c: nat, d: nat)
    requires c != d && c in s.calls && d in s.calls && s.calls[c].IssueCall? && s.calls[d] == s.calls[c]
    ensures var k := s.calls[c];
            var s' := After(cfg, s, [IssueClear(c), IssueClear(d)]);
            && s'.t.users == s.t.users && s'.t.otps.Keys == s.t.otps.Keys && NoActiveOtp(s'.t.otps, k.userId)
            && s'.calls == s.calls[c := ClearedCall(k.userId, k.email)][d := ClearedCall(k.userId, k.email)]
  {
    AfterTwo(cfg, s, IssueClear(c), IssueClear(d));
    ClearRuns(cfg, s, c);
    ClearRuns(cfg, Step(cfg, s, IssueClear(c)), d);
  }

  lemma NumberRuns(cfg: Config, s: State, c: nat, code: string, id: Id)
    requires c in s.calls && s.calls[c].ClearedCall?
    ensures var k := s.calls[c];
            Step(cfg, s, IssueNumber(c, code, id))
            == Park(s, c, NumberedCall(id, NextRow(cfg, s.t, s.clock, k.userId, k.email, code), code))
  {
  }

  lemma TwoNumber(cfg: Config, s: State, c: nat, d: nat, code: string, a: Id, b: Id)
    requires c != d && c in s.calls && d in s.calls && s.calls[c].ClearedCall? && s.calls[d] == s.calls[c]
    ensures var k := s.calls[c];
            var row := NextRow(cfg, s.t, s.clock, k.userId, k.email, code);
            After(cfg, s, [IssueNumber(c, code, a), IssueNumber(d, code, b)])
            == s.(calls := s.calls[c := NumberedCall(a, row, code)][d := NumberedCall(b, row, code)])
  {
    AfterTwo(cfg, s, IssueNumber(c, code, a), IssueNumber(d, code, b));
    NumberRuns(cfg, s, c, code, a);
    NumberRuns(cfg, Step(cfg, s, IssueNumber(c, code, a)), d, code, b);
  }

  lemma InsertRuns(cfg: Config, s: State, c: nat)
    requires IsNumbered(s, c) && InsertOk(s, s.calls[c])
    ensures var s', k := Step(cfg, s, IssueInsert(c)), s.calls[c];
            && s'.t == s.t.(otps := s.t.otps[k.id := k.row])
            && s'.calls == s.calls[c := DispatchCall(k.id, k.row.email, k.code)]
            && s'.clock == s.clock
  {
    InsertStores(s, c);
  }

  lemma TwoRowsOneNumber(otps: map<Id, Otp>, u: Id, at: Time, a: Id, b: Id, row: Otp)
    requires row.userId == u && a != b
    ensures Repeats(OtpsCut(otps[a := row], u, at)[b := row], u)
  {
    var otps' := OtpsCut(otps[a := row], u, at)[b := row];
    assert a in otps' && b in otps' && otps'[a].userId == u && otps'[b].userId == u;
    assert otps'[a].sequence == otps'[b].sequence;
  }

  lemma InsertsRepeat(cfg: Config, s: State, u: Id, c: nat, d: nat, e: nat, a: Id, b: Id, row: Otp,
                      code: string)
    requires c != d && c != e && d != e && a != b
    requires c in s.calls && s.calls[c] == NumberedCall(a, row, code)
    requires d in s.calls && s.calls[d] == NumberedCall(b, row, code)
    requires e in s.calls && s.calls[e].IssueCall? && s.calls[e].userId == row.userId == u
    requires InsertOk(s, s.calls[c]) && b !in s.t.otps
    ensures Repeats(After(cfg, s, [IssueInsert(c), IssueClear(e), IssueInsert(d)]).t.otps, u)
  {
    AfterThree(cfg, s, IssueInsert(c), IssueClear(e), IssueInsert(d));
    InsertRuns(cfg, s, c);
    var s1 := Step(cfg, s, IssueInsert(c));
    ClearRuns(cfg, s1, e);
    InsertRuns(cfg, Step(cfg, s1, IssueClear(e)), d);
    TwoRowsOneNumber(s.t.otps, u, s1.clock, a, b, row);
  }

  /** Once three issues of u are let through, two of them can store one number. */
  lemma AdmittedIssuesRepeat(cfg: Config, s: State, u: Id, email: string, c: nat, d: nat, e: nat, code: string, a: Id,
                             b: Id)
    requires c != d && c != e && d != e && c in s.calls && d in s.calls && e in s.calls && u in s.t.users
    requires s.calls[c] == IssueCall(u, email) && s.calls[d] == s.calls[c] && s.calls[e] == s.calls[c]
    requires a != b && a !in s.t.otps && b !in s.t.otps
    ensures Repeats(After(cfg, s, Collision(c, d, e, code, a, b)).t.otps, u)
  {
    var clears, numbers := [IssueClear(c), IssueClear(d)], [IssueNumber(c, code, a), IssueNumber(d, code, b)];
    AfterConcat(cfg, s, clears + numbers, [IssueInsert(c), IssueClear(e), IssueInsert(d)]);
    AfterConcat(cfg, s, clears, numbers);
    TwoClear(cfg, s, c, d);
    var s1 := After(cfg, s, clears);
    TwoNumber(cfg, s1, c, d, code, a, b);
    var s2 := After(cfg, s1, numbers);
    InsertsRepeat(cfg, s2, u, c, d, e, a, b, s2.calls[c].row, code);
  }

  /**
   * From any reached state in which u may ask for passcodes and the limiter lets three through, three overlapping
   * issues store one number twice.
   */
  lemma InterruptedNumberingRepeats(cfg: Config, start: Time, run: seq<Action>, u: Id, c: nat, d: nat, e: nat,
                                    code: string, a: Id, b: Id)
    requires var s := At(cfg, start, run);
             && Eligible(s.t, u) && Idle(s, c) && Idle(s, d) && Idle(s, e) && c != d && c != e && d != e
             && a != b && a !in s.t.otps && b !in s.t.otps && RoomFor(cfg, s, u, 3)
    ensures Repeats(At(cfg, start, run + Interleaving(u, c, d, e, code, a, b)).t.otps, u)
  {
    var s, email := At(cfg, start, run), At(cfg, start, run).t.users[u].email;
    var begins := [IssueBegin(c, u), IssueBegin(d, u), IssueBegin(e, u)];
    AfterConcat(cfg, Initial(start), run, Interleaving(u, c, d, e, code, a, b));
    AfterConcat(cfg, s, begins + Admissions(c, d, e), Collision(c, d, e, code, a, b));
    AfterConcat(cfg, s, begins, Admissions(c, d, e));
    LimitsInRuns(cfg, start, run, u);
    ThreeBegin(cfg, s, u, c, d, e);
    var s1 := After(cfg, s, begins);
    ThreeAdmitted(cfg, s1, u, email, c, d, e);
    AdmittedIssuesRepeat(cfg, After(cfg, s1, Admissions(c, d, e)), u, email, c, d, e, code, a, b);
  }

  // --------------------------------------------------------------------- issues in flight when an account goes

  /** Call c is an issue for u that has not stored its row yet. */
  predicate IssuingFor(s: State, c: nat, u: Id) {
    c in s.calls
    && match s.calls[c]
       case AskCall(v, _) => v == u
       case ArmCall(v, _, _) => v == u
       case IssueCall(v, _) => v == u
       case ClearedCall(v, _) => v == u
       case NumberedCall(_, row, _) => row.userId == u
       case _ => false
  }

  lemma NoIssueEnters(cfg: Config, s: State, a: Action, s': State, u: Id, c: nat)
    requires EntersOrStays(cfg, s, a, s')
    requires u in s.t.users && s.t.users[u].status == Deleted && IssuingFor(s', c, u)
    ensures IssuingFor(s, c, u)
  {
    if !(c in s.calls && s.calls[c] == s'.calls[c]) {
      assert Enters(cfg, s, a, c, s'.calls[c]);
      match s'.calls[c]
      case AskCall(_, _) =>
      case ArmCall(_, _, _) =>
      case IssueCall(_, _) =>
      case ClearedCall(_, _) =>
      case NumberedCall(_, _, _) =>
    }
  }

  lemma LastEnters(cfg: Config, start: Time, run: seq<Action>, more: seq<Action>)
    requires more != []
    ensures var n := |more| - 1;
            EntersOrStays(cfg, At(cfg, start, run + more[..n]), more[n], At(cfg, start, run + more))
  {
    var n := |more| - 1;
    assert run + more == run + more[..n] + [more[n]];
    Next(cfg, start, run + more[..n], more[n]);
    CallsEnter(cfg, At(cfg, start, run + more[..n]), more[n]);
  }

  lemma IssueWasThere(cfg: Config, start: Time, run: seq<Action>, more: seq<Action>, u: Id, c: nat)
    requires u in At(cfg, start, run).t.users && At(cfg, start, run).t.users[u].status == Deleted
    requires more != [] && IssuingFor(At(cfg, start, run + more), c, u)
    ensures IssuingFor(At(cfg, start, run + more[..|more| - 1]), c, u)
  {
    var n := |more| - 1;
    LastEnters(cfg, start, run, more);
    DeletedStays(cfg, start, run, more[..n], u);
    NoIssueEnters(cfg, At(cfg, start, run + more[..n]), more[n], At(cfg, start, run + more), u, c);
  }

  /** After the deletion, every unfinished issue for the account is one that was in flight when it committed. */
  lemma {:induction false} NoIssueStartsLater(cfg: Config, start: Time, run: seq<Action>, more: seq<Action>, u: Id,
                                              c: nat)
    requires u in At(cfg, start, run).t.users && At(cfg, start, run).t.users[u].status == Deleted
    requires IssuingFor(At(cfg, start, run + more), c, u)
    ensures IssuingFor(At(cfg, start, run), c, u)
  {
    if more == [] {
      assert run + more == run;
    } else {
      IssueWasThere(cfg, start, run, more, u, c);
      NoIssueStartsLater(cfg, start, run, more[..|more| - 1], u, c);
    }
  }

  /** After a deletion, the account's passcode rows grow exactly by issues that were in flight when it committed. */
  lemma LateRowsExactly(cfg: Config, start: Time, run: seq<Action>, more: seq<Action>, u: Id, a: Action)
    requires u in At(cfg, start, run).t.users && At(cfg, start, run).t.users[u].status == Deleted
    ensures var s := At(cfg, start, run + more);
            OtpsOf(Step(cfg, s, a).t, u) != OtpsOf(s.t, u) <==>
            && (StoresAtOnce(s, a, u) || StoresNumbered(s, a, u))
            && IssuingFor(At(cfg, start, run), a.call, u)
  {
    var s := At(cfg, start, run + more);
    Reachable(cfg, start, run + more);
    RowsGrowExactly(cfg, s, a, u);
    if StoresAtOnce(s, a, u) || StoresNumbered(s, a, u) {
      NoIssueStartsLater(cfg, start, run, more, u, a.call);
    }
  }

  /** No row of a deleted account, early or late, is ever accepted. */
  lemma DeletedAccountAcceptsNothing(cfg: Config, start: Time, run: seq<Action>, more: seq<Action>, u: Id, o: Id,
                                     a: Action)
    requires u in At(cfg, start, run).t.users && At(cfg, start, run).t.users[u].status == Deleted
    requires o in OtpsOf(At(cfg, start, run + more).t, u)
    ensures AcceptedBy(cfg, At(cfg, start, run + more), a) != Some(o)
  {
    DeletionIsFinal(cfg, start, run, more, u);
  }

  /** The deletion goes through in this state. */
  ghost predicate Deletes(cfg: Config, s: State, u: Id, code: string, noticeId: Id, fault: int) {
    ConfirmedDeletion(cfg, s.t, s.clock, u, code, noticeId, fault).1.Finished?
  }

  lemma DeletionCommits(cfg: Config, s: State, u: Id, code: string, noticeId: Id, fault: int)
    requires Deletes(cfg, s, u, code, noticeId, fault)
    ensures var s' := Step(cfg, s, ConfirmDeletion(u, code, noticeId, fault));
            && s'.calls == s.calls && s'.clock == s.clock && s'.limits == s.limits
            && u in s.t.users && u in s'.t.users && s'.t.users[u] == Erased(cfg, u, s.t.users[u], s.clock)
            && s'.t.otps == s.t.otps && s'.t.sessions == SessionsCut(s.t.sessions, u, s.clock)
            && s'.past.issued == s.past.issued
  {
  }

  lemma LateStore(cfg: Config, s: State, c: nat, code: string, id: Id)
    requires c in s.calls && s.calls[c].IssueCall? && id !in s.t.otps && s.calls[c].userId in s.t.users
    ensures var k, s' := s.calls[c], Step(cfg, s, IssueStore(c, code, id));
            && ActiveOtp(s'.t, k.userId, id) && s'.t.otps[id].email == k.email && s'.t.users == s.t.users
            && c in s'.calls && s'.calls[c] == DispatchCall(id, k.email, code)
  {
    StoredAtOnce(cfg, s, c, code, id);
  }

  /**
   * Nothing stops an issue from being in flight across a deletion. From any reached state in which the deletion goes
   * through and the user may still ask for a passcode, an issue the limiter has let through stores an active row after
   * the deletion, and sends its code to the address of before.
   */
  lemma LateIssueStillStores(cfg: Config, start: Time, run: seq<Action>, u: Id, c: nat, code: string, noticeId: Id,
                             fault: int, passcode: string, id: Id)
    requires var s := At(cfg, start, run);
             && Eligible(s.t, u) && Idle(s, c) && RoomFor(cfg, s, u, 1) && id !in s.t.otps
             && Deletes(cfg, s, u, code, noticeId, fault)
    ensures var s := At(cfg, start, run);
            var s' := At(cfg, start, run + [IssueBegin(c, u)] + Admission(c)
                                     + [ConfirmDeletion(u, code, noticeId, fault)] + [IssueStore(c, passcode, id)]);
            && u in s'.t.users && s'.t.users[u].status == Deleted
            && ActiveOtp(s'.t, u, id) && s'.t.otps[id].email == s.t.users[u].email
            && c in s'.calls && s'.calls[c] == DispatchCall(id, s.t.users[u].email, passcode)
  {
    var s, email := At(cfg, start, run), At(cfg, start, run).t.users[u].email;
    var r1 := run + [IssueBegin(c, u)];
    var r2 := r1 + Admission(c);
    var r3 := r2 + [ConfirmDeletion(u, code, noticeId, fault)];
    Next(cfg, start, run, IssueBegin(c, u));
    BeginParks(cfg, s, c, u);
    AfterConcat(cfg, Initial(start), r1, Admission(c));
    LimitsInRuns(cfg, start, run, u);
    AdmissionRuns(cfg, At(cfg, start, r1), u, email, c, 1);
    Next(cfg, start, r2, ConfirmDeletion(u, code, noticeId, fault));
    DeletionCommits(cfg, At(cfg, start, r2), u, code, noticeId, fault);
    Next(cfg, start, r3, IssueStore(c, passcode, id));
    LateStore(cfg, At(cfg, start, r3), c, passcode, id);
  }

  // --------------------------------------------------------------------- logins in flight when an account goes

  ghost function SessionsOf(t: Tables, u: Id): set<Id> {
    set i | i in t.sessions && t.sessions[i].userId == u
  }

  /** The action resumes a login on u whose password matched, and stores its session. */
  predicate StartsSession(cfg: Config, s: State, a: Action, u: Id) {
    && a.LoginFinish? && LoginOn(s, a.call, u) && s.calls[a.call].attempt.matched && u in s.t.users
    && TokenFree(s.t, a.sid, cfg.sha(a.token))
  }

  lemma NewSessionIsFound(t: Tables, t': Tables, sid: Id, row: Session)
    requires TokenFree(t, sid, row.tokenHash) && t'.sessions == t.sessions[sid := row]
    ensures SessionByHash(t', row.tokenHash) == Some(sid)
  {
    assert sid in t'.sessions && t'.sessions[sid].tokenHash == row.tokenHash;
    assert forall r | r in t'.sessions && r != sid :: t'.sessions[r].tokenHash != row.tokenHash;
  }

  /** In a good state, the sessions of u grow exactly when a matched login of u ends and its id and hash are free. */
  lemma SessionsGrowExactly(cfg: Config, s: State, a: Action, u: Id)
    requires Inv(cfg, s)
    ensures SessionsOf(Step(cfg, s, a).t, u) != SessionsOf(s.t, u) <==> StartsSession(cfg, s, a, u)
  {
    var t' := Step(cfg, s, a).t;
    forall i ensures i in SessionsOf(t', u) <==>
                     i in SessionsOf(s.t, u) || (StartsSession(cfg, s, a, u) && i == a.sid) {
      SessionExactly(cfg, s, a, i);
    }
    if StartsSession(cfg, s, a, u) {
      assert a.sid !in SessionsOf(s.t, u) && a.sid in SessionsOf(t', u);
    }
  }

  lemma NoLoginEnters(cfg: Config, s: State, a: Action, s': State, u: Id, c: nat)
    requires EntersOrStays(cfg, s, a, s')
    requires u in s.t.users && s.t.users[u].status == Deleted && LoginOn(s', c, u)
    ensures LoginOn(s, c, u) && s.calls[c] == s'.calls[c]
  {
  }

  lemma LoginWasThere(cfg: Config, start: Time, run: seq<Action>, more: seq<Action>, u: Id, c: nat)
    requires u in At(cfg, start, run).t.users && At(cfg, start, run).t.users[u].status == Deleted
    requires more != [] && LoginOn(At(cfg, start, run + more), c, u)
    ensures var s := At(cfg, start, run + more[..|more| - 1]);
            LoginOn(s, c, u) && s.calls[c] == At(cfg, start, run + more).calls[c]
  {
    var n := |more| - 1;
    LastEnters(cfg, start, run, more);
    DeletedStays(cfg, start, run, more[..n], u);
    NoLoginEnters(cfg, At(cfg, start, run + more[..n]), more[n], At(cfg, start, run + more), u, c);
  }

  /** After the deletion, every unfinished login on the account is one that was in flight when it committed. */
  lemma {:induction false} NoLoginStartsLater(cfg: Config, start: Time, run: seq<Action>, more: seq<Action>, u: Id,
                                              c: nat)
    requires u in At(cfg, start, run).t.users && At(cfg, start, run).t.users[u].status == Deleted
    requires LoginOn(At(cfg, start, run + more), c, u)
    ensures LoginOn(At(cfg, start, run), c, u)
    ensures At(cfg, start, run).calls[c] == At(cfg, start, run + more).calls[c]
  {
    if more == [] {
      assert run + more == run;
    } else {
      LoginWasThere(cfg, start, run, more, u, c);
      NoLoginStartsLater(cfg, start, run, more[..|more| - 1], u, c);
    }
  }

  /**
   * After a deletion, the account's session rows grow exactly by logins that were in flight when it committed, had
   * compared the right password, and find their session id and token hash free.
   */
  lemma LateSessionsExactly(cfg: Config, start: Time, run: seq<Action>, more: seq<Action>, u: Id, a: Action)
    requires u in At(cfg, start, run).t.users && At(cfg, start, run).t.users[u].status == Deleted
    ensures var s, s' := At(cfg, start, run), At(cfg, start, run + more);
            SessionsOf(Step(cfg, s', a).t, u) != SessionsOf(s'.t, u) <==>
            && StartsSession(cfg, s', a, u)
            && LoginOn(s, a.call, u) && s.calls[a.call] == s'.calls[a.call]
  {
    Reachable(cfg, start, run + more);
    SessionsGrowExactly(cfg, At(cfg, start, run + more), a, u);
    if StartsSession(cfg, At(cfg, start, run + more), a, u) {
      NoLoginStartsLater(cfg, start, run, more, u, a.call);
    }
  }

  lemma BeginLoginParks(cfg: Config, s: State, c: nat, email: string, password: string)
    requires Idle(s, c) && Begun(cfg, s.t, s.clock, email, password).Comparing?
    ensures Step(cfg, s, LoginBegin(c, email, password))
         == Park(s, c, LoginCall(Begun(cfg, s.t, s.clock, email, password).attempt))
  {
  }

  /** What a token issued by a login in flight is good for: it validates as u if u is active, and is refused if not. */
  lemma LateTokenValidates(cfg: Config, s: State, call: nat, sid: Id, token: string, u: Id)
    requires LoginOn(s, call, u) && s.calls[call].attempt.matched && u in s.t.users
    requires TokenFree(s.t, sid, cfg.sha(token)) && cfg.sessionMs >= 1
    ensures var s' := Step(cfg, s, LoginFinish(call, sid, token));
            && sid in LiveSessions(s'.t, u, s'.clock) && sid in s'.past.issued && s'.past.issued[sid] == token
            && u in s'.t.users && s'.t.users[u].status == s.t.users[u].status
            && s'.t.users[u].passwordHash == s.t.users[u].passwordHash
            && Validated(cfg, s'.t, s'.clock, token).1
            == if s.t.users[u].status == Active then Valid(u) else Invalid(AccountSuspended)
  {
    SuccessShape(cfg, s.t, s.clock, s.calls[call].attempt, sid, token);
    var t' := FinishLogin(cfg, s, call, sid, token).t;
    NewSessionIsFound(s.t, t', sid, NewSession(cfg, u, token, s.clock));
  }

  /**
   * Nothing stops a login from being in flight across a deletion. From any reached state in which the deletion goes
   * through and a login with the right password gets as far as the comparison, that login leaves a live session row
   * of the deleted account; its token is dead on arrival.
   */
  lemma LateLoginTokenIsDead(cfg: Config, start: Time, run: seq<Action>, u: Id, c: nat, email: string,
                             password: string, code: string, noticeId: Id, fault: int, sid: Id, token: string)
    requires var s := At(cfg, start, run);
             var r := Begun(cfg, s.t, s.clock, email, password);
             && Idle(s, c) && r.Comparing? && r.attempt.matched && r.attempt.userId == u
             && Deletes(cfg, s, u, code, noticeId, fault)
    requires TokenFree(At(cfg, start, run).t, sid, cfg.sha(token)) && cfg.sessionMs >= 1
    ensures var s' := At(cfg, start, run + [LoginBegin(c, email, password)]
                                     + [ConfirmDeletion(u, code, noticeId, fault)] + [LoginFinish(c, sid, token)]);
            && u in s'.t.users && s'.t.users[u].status == Deleted
            && sid in LiveSessions(s'.t, u, s'.clock) && sid in s'.past.issued && s'.past.issued[sid] == token
            && Validated(cfg, s'.t, s'.clock, token).1 == Invalid(AccountSuspended)
  {
    var s := At(cfg, start, run);
    var r1 := run + [LoginBegin(c, email, password)];
    var r2 := r1 + [ConfirmDeletion(u, code, noticeId, fault)];
    Next(cfg, start, run, LoginBegin(c, email, password));
    BeginLoginParks(cfg, s, c, email, password);
    Next(cfg, start, r1, ConfirmDeletion(u, code, noticeId, fault));
    DeletionCommits(cfg, At(cfg, start, r1), u, code, noticeId, fault);
    Next(cfg, start, r2, LoginFinish(c, sid, token));
    LateTokenValidates(cfg, At(cfg, start, r2), c, sid, token, u);
  }

  // --------------------------------------------------------------------------- logins in flight across a reset

  lemma ResetCommits(cfg: Config, s: State, e: nat, hash: string, fault: int)
    requires Inv(cfg, s) && e in s.calls && s.calls[e].ResetCall? && !(0 <= fault < 3)
    ensures var u, s' := s.calls[e].reset.userId, Step(cfg, s, ResetFinish(e, hash, fault));
            && s'.calls == s.calls - {e} && s'.clock == s.clock && u in s.t.users && u in s'.t.users
            && s'.t.users[u] == s.t.users[u].(passwordHash := hash)
            && s'.t.sessions == SessionsCut(s.t.sessions, u, s.calls[e].reset.checkedAt)
  {
    assert Holds(cfg, s, CallsFact);
    assert CallHolds(s.t, s.calls[e]);
  }

  lemma CutKeepsTokensFree(sessions: map<Id, Session>, u: Id, at: Time)
    ensures SessionsCut(sessions, u, at).Keys == sessions.Keys
    ensures forall i | i in sessions :: SessionsCut(sessions, u, at)[i].tokenHash == sessions[i].tokenHash
  {
  }

  /**
   * Nothing stops a login from being in flight across a reset either: it compared the old hash, and once the reset has
   * replaced that hash and ended the user's sessions it still issues a token, which validates.
   */
  lemma LoginAcrossReset(cfg: Config, start: Time, run: seq<Action>, u: Id, c: nat, email: string, password: string,
                         e: nat, hash: string, fault: int, sid: Id, token: string)
    requires var s := At(cfg, start, run);
             var r := Begun(cfg, s.t, s.clock, email, password);
             && Idle(s, c) && r.Comparing? && r.attempt.matched && r.attempt.userId == u
             && e in s.calls && s.calls[e].ResetCall? && s.calls[e].reset.userId == u && !(0 <= fault < 3)
    requires TokenFree(At(cfg, start, run).t, sid, cfg.sha(token)) && cfg.sessionMs >= 1
    ensures var s' := At(cfg, start, run + [LoginBegin(c, email, password)] + [ResetFinish(e, hash, fault)]
                                     + [LoginFinish(c, sid, token)]);
            && u in s'.t.users && s'.t.users[u].passwordHash == hash
            && Validated(cfg, s'.t, s'.clock, token).1 == Valid(u)
  {
    var s := At(cfg, start, run);
    var r1 := run + [LoginBegin(c, email, password)];
    var r2 := r1 + [ResetFinish(e, hash, fault)];
    Reachable(cfg, start, r1);
    Next(cfg, start, run, LoginBegin(c, email, password));
    BeginLoginParks(cfg, s, c, email, password);
    Next(cfg, start, r1, ResetFinish(e, hash, fault));
    ResetCommits(cfg, At(cfg, start, r1), e, hash, fault);
    CutKeepsTokensFree(s.t.sessions, u, s.calls[e].reset.checkedAt);
    Next(cfg, start, r2, LoginFinish(c, sid, token));
    LateTokenValidates(cfg, At(cfg, start, r2), c, sid, token, u);
  }

  /** The hash the last reset of u in `more` has stored, `hash` if there was none. */
  ghost function LastHash(cfg: Config, start: Time, run: seq<Action>, more: seq<Action>, u: Id, hash: string): string {
    if more == [] then hash
    else
      var n := |more| - 1;
      if Resets(At(cfg, start, run + more[..n]), more[n], u) then more[n].hash
      else LastHash(cfg, start, run, more[..n], u, hash)
  }

  lemma PasswordAfterStep(cfg: Config, s: State, a: Action, u: Id)
    requires Inv(cfg, s) && u in s.t.users
    ensures var s' := Step(cfg, s, a);
            && u in s'.t.users
            && s'.t.users[u].passwordHash == if Resets(s, a, u) then a.hash else s.t.users[u].passwordHash
  {
    UserExactly(cfg, s, a, u);
  }

  /** The stored hash is always that of the last reset. */
  lemma {:induction false} HashIsTheLast(cfg: Config, start: Time, run: seq<Action>, more: seq<Action>, u: Id)
    requires u in At(cfg, start, run).t.users
    ensures var s, s' := At(cfg, start, run), At(cfg, start, run + more);
            && u in s'.t.users
            && s'.t.users[u].passwordHash == LastHash(cfg, start, run, more, u, s.t.users[u].passwordHash)
  {
    if more == [] {
      assert run + more == run;
    } else {
      var n := |more| - 1;
      assert (run + more)[..|run + more| - 1] == run + more[..n];
      HashIsTheLast(cfg, start, run, more[..n], u);
      Reachable(cfg, start, run + more[..n]);
      PasswordAfterStep(cfg, At(cfg, start, run + more[..n]), more[n], u);
    }
  }

  /** Call c began its login at action j of `more`, with snapshot p. */
  ghost predicate BegunAt(cfg: Config, start: Time, run: seq<Action>, more: seq<Action>, c: nat, p: Auth.Attempt,
                          j: nat)
  {
    && j < |more| && more[j].LoginBegin? && more[j].call == c
    && var s := At(cfg, start, run + more[..j]);
       Begun(cfg, s.t, s.clock, more[j].email, more[j].password) == Comparing(p)
  }

  lemma LoginEntersOrStays(cfg: Config, s: State, a: Action, s': State, u: Id, c: nat)
    requires EntersOrStays(cfg, s, a, s') && LoginOn(s', c, u)
    ensures || (LoginOn(s, c, u) && s.calls[c] == s'.calls[c])
            || (a.LoginBegin? && a.call == c
                && Begun(cfg, s.t, s.clock, a.email, a.password) == Comparing(s'.calls[c].attempt))
  {
  }

  /** The login of call c on u has been in flight, unchanged. */
  predicate SameLogin(s: State, s': State, c: nat, u: Id) {
    LoginOn(s, c, u) && LoginOn(s', c, u) && s.calls[c] == s'.calls[c]
  }

  ghost predicate BegunSince(cfg: Config, start: Time, run: seq<Action>, more: seq<Action>, c: nat, p: Auth.Attempt) {
    exists j: nat :: BegunAt(cfg, start, run, more, c, p, j)
  }

  lemma BegunStill(cfg: Config, start: Time, run: seq<Action>, more: seq<Action>, c: nat, p: Auth.Attempt)
    requires more != [] && BegunSince(cfg, start, run, more[..|more| - 1], c, p)
    ensures BegunSince(cfg, start, run, more, c, p)
  {
    var j: nat :| BegunAt(cfg, start, run, more[..|more| - 1], c, p, j);
    assert more[..|more| - 1][..j] == more[..j];
    assert BegunAt(cfg, start, run, more, c, p, j);
  }

  lemma BegunLast(cfg: Config, start: Time, run: seq<Action>, more: seq<Action>, c: nat, p: Auth.Attempt, s: State)
    requires more != [] && s == At(cfg, start, run + more[..|more| - 1])
    requires var a := more[|more| - 1];
             a.LoginBegin? && a.call == c && Begun(cfg, s.t, s.clock, a.email, a.password) == Comparing(p)
    ensures BegunSince(cfg, start, run, more, c, p)
  {
    assert BegunAt(cfg, start, run, more, c, p, |more| - 1);
  }

  /** A login that is comparing was already doing so at the end of `run`, or began since. */
  lemma {:induction false} LoginsAreOldOrNew(cfg: Config, start: Time, run: seq<Action>, more: seq<Action>, u: Id,
                                             c: nat)
    requires LoginOn(At(cfg, start, run + more), c, u)
    ensures var s, s' := At(cfg, start, run), At(cfg, start, run + more);
            SameLogin(s, s', c, u) || BegunSince(cfg, start, run, more, c, s'.calls[c].attempt)
  {
    if more == [] {
      assert run + more == run;
    } else {
      var n := |more| - 1;
      assert (run + more)[..|run + more| - 1] == run + more[..n];
      var mid, s' := At(cfg, start, run + more[..n]), At(cfg, start, run + more);
      CallsEnter(cfg, mid, more[n]);
      LoginEntersOrStays(cfg, mid, more[n], s', u, c);
      if SameLogin(mid, s', c, u) {
        LoginsAreOldOrNew(cfg, start, run, more[..n], u, c);
        if !SameLogin(At(cfg, start, run), mid, c, u) {
          BegunStill(cfg, start, run, more, c, s'.calls[c].attempt);
        }
      } else {
        BegunLast(cfg, start, run, more, c, s'.calls[c].attempt, mid);
      }
    }
  }

  /** Login p compared a password that matches the hash of the reset `first`, or of one after it. */
  ghost predicate KnewNewPassword(cfg: Config, start: Time, run: seq<Action>, more: seq<Action>, c: nat,
                                  p: Auth.Attempt, hash: string)
  {
    exists j: nat :: BegunAt(cfg, start, run, more, c, p, j)
                     && cfg.matches(more[j].password, LastHash(cfg, start, run, more[..j], p.userId, hash))
  }

  lemma NewLoginKnewPassword(cfg: Config, start: Time, run: seq<Action>, more: seq<Action>, c: nat, p: Auth.Attempt,
                             j: nat, hash: string)
    requires p.userId in At(cfg, start, run).t.users && At(cfg, start, run).t.users[p.userId].passwordHash == hash
    requires BegunAt(cfg, start, run, more, c, p, j) && p.matched
    ensures KnewNewPassword(cfg, start, run, more, c, p, hash)
  {
    HashIsTheLast(cfg, start, run, more[..j], p.userId);
  }

  /**
   * After a reset, whatever happens, every new session of the user comes from a login that was in flight when the reset
   * committed, or from one that compared a password matching the hash of that reset or of a later one.
   */
  lemma SessionsAfterReset(cfg: Config, start: Time, run: seq<Action>, first: Action, more: seq<Action>, u: Id,
                           a: Action)
    requires Resets(At(cfg, start, run), first, u)
    requires var s' := At(cfg, start, run + [first] + more); SessionsOf(Step(cfg, s', a).t, u) != SessionsOf(s'.t, u)
    ensures var s, s' := At(cfg, start, run), At(cfg, start, run + [first] + more);
            && StartsSession(cfg, s', a, u)
            && (SameLogin(s, s', a.call, u)
                || KnewNewPassword(cfg, start, run + [first], more, a.call, s'.calls[a.call].attempt, first.hash))
  {
    var s, done, s' := At(cfg, start, run), At(cfg, start, run + [first]), At(cfg, start, run + [first] + more);
    Reachable(cfg, start, run + [first] + more);
    SessionsGrowExactly(cfg, s', a, u);
    Reachable(cfg, start, run);
    Next(cfg, start, run, first);
    ResetCommits(cfg, s, first.call, first.hash, first.fault);
    LoginsAreOldOrNew(cfg, start, run + [first], more, u, a.call);
    if !SameLogin(done, s', a.call, u) {
      var p := s'.calls[a.call].attempt;
      var j: nat :| BegunAt(cfg, start, run + [first], more, a.call, p, j);
      NewLoginKnewPassword(cfg, start, run + [first], more, a.call, p, j, first.hash);
    }
  }

  // ----------------------------------------------------------- a verify that reads before a deletion, and writes after

  lemma AcceptanceAfterDeletion(cfg: Config, s: State, u: Id, code: string, noticeId: Id, fault: int, o: Id, at: Time)
    requires Deletes(cfg, s, u, code, noticeId, fault) && o in s.t.otps
    ensures var t' := Step(cfg, s, ConfirmDeletion(u, code, noticeId, fault)).t;
            var r := ExecAll(t', [UpdateUser(u, Activate(at)), InvalidateOtp(o, at)]);
            && u in t'.users && t'.users[u].status == Deleted
            && r.Some? && u in r.value.users && r.value.users[u].status == Active
            && r.value.users[u].deletedAt == Some(s.clock)
  {
    DeletionCommits(cfg, s, u, code, noticeId, fault);
    AcceptanceRuns(Step(cfg, s, ConfirmDeletion(u, code, noticeId, fault)).t, u, o, at);
  }

  /**
   * A verify is one segment here. Where a submission would be accepted and a deletion goes through, the statements of
   * that acceptance, run on what the deletion has left, go through as well and set the deleted account active again.
   */
  lemma StaleAcceptanceRevives(cfg: Config, start: Time, run: seq<Action>, u: Id, code: string, noticeId: Id,
                               fault: int, passcode: string, o: Id, at: Time)
    requires var s := At(cfg, start, run);
             Deletes(cfg, s, u, code, noticeId, fault) && AcceptedBy(cfg, s, VerifyOtp(u, passcode, -1)) == Some(o)
    ensures var t' := At(cfg, start, run + [ConfirmDeletion(u, code, noticeId, fault)]).t;
            var r := ExecAll(t', [UpdateUser(u, Activate(at)), InvalidateOtp(o, at)]);
            && u in t'.users && t'.users[u].status == Deleted
            && r.Some? && u in r.value.users && r.value.users[u].status == Active
            && r.value.users[u].deletedAt == Some(At(cfg, start, run).clock)
  {
    Next(cfg, start, run, ConfirmDeletion(u, code, noticeId, fault));
    AcceptanceAfterDeletion(cfg, At(cfg, start, run), u, code, noticeId, fault, o, at);
  }
}
