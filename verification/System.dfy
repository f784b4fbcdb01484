/**
 * The whole service as a transition system. A state holds the clock, the tables, the calls waiting for bcrypt, Redis
 * or the mail provider, and a history of facts the tables forget. An action is one atomic segment of one call, an
 * administrator's suspension, or the passage of time; any sequence of actions is a run.
 */
module System {
  import opened Prelude
  import opened Schema
  import opened Sessions
  import opened Auth
  import opened Otps
  import opened Deletion
  import PasswordRecovery
  import opened Accounts
  import opened Outbox
  import RateLimit

  /** A call that has let go of the thread; each constructor carries the snapshot it will act on. */
  datatype Call =
    | RegisterCall(username: string, email: string)
    | AskCall(userId: Id, email: string)
    | ArmCall(userId: Id, email: string, allowed: bool)
    | IssueCall(userId: Id, email: string)
    | ClearedCall(userId: Id, email: string)
    | NumberedCall(id: Id, row: Otp, code: string)
    | DispatchCall(otpId: Id, email: string, code: string)
    | LoginCall(attempt: Auth.Attempt)
    | ResetCall(reset: PasswordRecovery.Attempt)
    | NoticeCall(queue: seq<Id>, retriesRead: map<Id, nat>)

  /**
   * Facts about the past: the email each user registered with, the raw token issued for each session, the order
   * in which passcodes were created, and the request and notice of each finished deletion.
   */
  datatype History = History(
    registered: map<Id, string>, issued: map<Id, string>, born: map<Id, nat>, finished: map<Id, (Id, Id)>)

  datatype State = State(
    clock: Time, t: Tables, calls: map<nat, Call>, past: History, limits: map<Id, RateLimit.Trace>)

  datatype Action =
    | Advance(ms: nat)
    | SuspendUser(u: Id)
    | RegisterBegin(call: nat, username: string, email: string)
    | RegisterEnd(call: nat, id: Id, hash: string)
    | IssueBegin(call: nat, u: Id)
    | IssueAsk(call: nat)
    | IssueArm(call: nat)
    | IssueStore(call: nat, code: string, id: Id)
    | IssueClear(call: nat)
    | IssueNumber(call: nat, code: string, id: Id)
    | IssueInsert(call: nat)
    | IssueMark(call: nat, delivered: bool)
    | VerifyOtp(u: Id, code: string, fault: int)
    | AddActivationToken(id: Id, row: ActivationToken)
    | ActivateAccount(value: string, fault: int)
    | LoginBegin(call: nat, email: string, password: string)
    | LoginFinish(call: nat, sid: Id, token: string)
    | ValidateSession(token: string)
    | Logout(token: string)
    | RequestDeletion(u: Id, code: string, id: Id)
    | ConfirmDeletion(u: Id, code: string, noticeId: Id, fault: int)
    | CancelDeletion(u: Id)
    | RequestRecovery(email: string, token: string, id: Id)
    | ResetBegin(call: nat, token: string, password: string)
    | ResetFinish(call: nat, hash: string, fault: int)
    | NoticeTick(call: nat, queue: seq<Id>)
    | NoticeSettle(call: nat, delivered: bool)

  function Initial(start: Time): State {
    State(start, EMPTY, map[], History(map[], map[], map[], map[]), map[])
  }

  function Park(s: State, call: nat, c: Call): State {
    s.(calls := s.calls[call := c])
  }

  function Drop(s: State, call: nat): State {
    s.(calls := s.calls - {call})
  }

  /** A call id is used by one call at a time. */
  predicate Idle(s: State, call: nat) {
    call !in s.calls
  }

  /** Call ids for calls that can begin side by side. */
  ghost predicate AllIdle(s: State, cs: seq<nat>) {
    Distinct(cs) && forall c | c in cs :: Idle(s, c)
  }

  /** Call c is a login on u that is comparing passwords. */
  predicate LoginOn(s: State, c: nat, u: Id) {
    c in s.calls && s.calls[c].LoginCall? && s.calls[c].attempt.userId == u
  }

  ghost predicate NameHeld(t: Tables, normalised: string) {
    exists u :: u in t.users && t.users[u].normalised == normalised
  }

  function OtpStored(s: State, t: Tables, id: Id): State {
    s.(t := t, past := s.past.(born := s.past.born[id := |s.past.born|]))
  }

  // Segments that resume a waiting call, one function each.

  function EndRegister(cfg: Config, s: State, call: nat, id: Id, hash: string): State
    requires call in s.calls && s.calls[call].RegisterCall?
  {
    var c := s.calls[call];
    var (t, created) := Registered(cfg, s.t, s.clock, id, c.username, c.email, hash);
    if !created then Drop(s, call)
    else Drop(s, call).(t := t, past := s.past.(registered := s.past.registered[id := c.email]))
  }

  /** What Redis holds for a user's issues, with the answers it has given so far. */
  function LimitOf(s: State, u: Id): RateLimit.Trace {
    if u in s.limits then s.limits[u] else RateLimit.START
  }

  /** The trace after one more attempt at the current time. */
  function Asked(cfg: Config, s: State, u: Id): RateLimit.Trace {
    RateLimit.Apply(cfg.quota, cfg.windowMs, LimitOf(s, u), RateLimit.Attempt(s.clock))
  }

  predicate LastAllowed(l: RateLimit.Trace) {
    l.answers != [] && l.answers[|l.answers| - 1].allowed
  }

  /** INCR. The attempt that reads 1 has an EXPIRE to send; of the others, those allowed go on. */
  function AskIssue(cfg: Config, s: State, call: nat): State
    requires call in s.calls && s.calls[call].AskCall?
  {
    var c := s.calls[call];
    var l := Asked(cfg, s, c.userId);
    var s' := s.(limits := s.limits[c.userId := l]);
    if l.counter.Some? && l.counter.value.count == 1 then Park(s', call, ArmCall(c.userId, c.email, LastAllowed(l)))
    else if LastAllowed(l) then Park(s', call, IssueCall(c.userId, c.email))
    else Drop(s', call)
  }

  /** EXPIRE. */
  function ArmIssue(cfg: Config, s: State, call: nat): State
    requires call in s.calls && s.calls[call].ArmCall?
  {
    var c := s.calls[call];
    var l := RateLimit.Apply(cfg.quota, cfg.windowMs, LimitOf(s, c.userId), RateLimit.Arm(s.clock));
    var s' := s.(limits := s.limits[c.userId := l]);
    if c.allowed then Park(s', call, IssueCall(c.userId, c.email)) else Drop(s', call)
  }

  ghost function StoreIssue(cfg: Config, s: State, call: nat, code: string, id: Id): State
    requires call in s.calls && s.calls[call].IssueCall?
  {
    var c := s.calls[call];
    var (t, stored) := Issued(cfg, s.t, s.clock, c.userId, c.email, code, id);
    if stored.None? then Drop(s, call).(t := t)
    else OtpStored(Park(s, call, DispatchCall(id, c.email, code)), t, id)
  }

  /** The same segment with a pause after each of its statements: clear, number, insert. */
  function ClearIssue(s: State, call: nat): State
    requires call in s.calls && s.calls[call].IssueCall?
  {
    var c := s.calls[call];
    Park(s, call, ClearedCall(c.userId, c.email)).(t := Cleared(s.t, c.userId, s.clock))
  }

  ghost function NumberIssue(cfg: Config, s: State, call: nat, code: string, id: Id): State
    requires call in s.calls && s.calls[call].ClearedCall?
  {
    var c := s.calls[call];
    Park(s, call, NumberedCall(id, NextRow(cfg, s.t, s.clock, c.userId, c.email, code), code))
  }

  function InsertIssue(s: State, call: nat): State
    requires call in s.calls && s.calls[call].NumberedCall?
  {
    var c := s.calls[call];
    match Exec(s.t, InsertOtp(c.id, c.row))
    case None => Drop(s, call)
    case Some(t) => OtpStored(Park(s, call, DispatchCall(c.id, c.row.email, c.code)), t, c.id)
  }

  function FinishLogin(cfg: Config, s: State, call: nat, sid: Id, token: string): State
    requires call in s.calls && s.calls[call].LoginCall?
  {
    var a := s.calls[call].attempt;
    if a.userId !in s.t.users then Drop(s, call)
    else
      var (t, end) := Resumed(cfg, s.t, s.clock, a, sid, token);
      var s' := Drop(s, call).(t := t);
      if end.LoggedIn? then s'.(past := s.past.(issued := s.past.issued[sid := token])) else s'
  }

  function FinishReset(s: State, call: nat, hash: string, fault: int): State
    requires call in s.calls && s.calls[call].ResetCall?
  {
    var a := s.calls[call].reset;
    if a.userId !in s.t.users || a.requestId !in s.t.recoveries then Drop(s, call)
    else Drop(s, call).(t := PasswordRecovery.ResetFinished(s.t, a, hash, fault))
  }

  ghost function FinishDeletion(cfg: Config, s: State, u: Id, code: string, noticeId: Id, fault: int): State {
    var (t, end) := ConfirmedDeletion(cfg, s.t, s.clock, u, code, noticeId, fault);
    if end.Finished? then s.(t := t, past := s.past.(finished := s.past.finished[u := (end.requestId, noticeId)]))
    else s
  }

  /** The notice worker handles the head of its list and keeps the rest. */
  function SettleNotice(cfg: Config, s: State, call: nat, delivered: bool): State
    requires call in s.calls && s.calls[call].NoticeCall?
  {
    var c := s.calls[call];
    if c.queue == [] then Drop(s, call)
    else
      var r := c.queue[0];
      var s' := Park(s, call, NoticeCall(c.queue[1..], c.retriesRead));
      if r !in s.t.notices || r !in c.retriesRead then s'
      else s'.(t := s.t.(notices := s.t.notices[
             r := Settled(s.t.notices[r], c.retriesRead[r], delivered, cfg.maxRetries)]))
  }

  // Segments that run from start to end, or that only start a call.

  function AdminSuspends(s: State, u: Id): State {
    if Eligible(s.t, u) then s.(t := WithUser(s.t, u, Changed(s.t.users[u], Suspend))) else s
  }

  ghost function BeginRegister(cfg: Config, s: State, call: nat, username: string, email: string): State {
    if Idle(s, call) && !NameHeld(s.t, Normalised(cfg, username)) then Park(s, call, RegisterCall(username, email))
    else s
  }

  function BeginIssue(s: State, call: nat, u: Id): State {
    var gate := Gated(s.t, u);
    if Idle(s, call) && gate.MayIssue? then Park(s, call, AskCall(u, gate.email)) else s
  }

  function MarkIssue(s: State, call: nat, delivered: bool): State
    requires call in s.calls && s.calls[call].DispatchCall?
  {
    Drop(s, call).(t := Marked(s.t, s.calls[call].otpId, delivered))
  }

  ghost function SubmitOtp(cfg: Config, s: State, u: Id, code: string, fault: int): State {
    s.(t := Verified(cfg, s.t, s.clock, u, code, fault).0)
  }

  function AddToken(s: State, id: Id, row: ActivationToken): State {
    var r := Exec(s.t, InsertToken(id, row));
    if r.Some? then s.(t := r.value) else s
  }

  ghost function SubmitToken(s: State, value: string, fault: int): State {
    s.(t := Activation(s.t, s.clock, value, fault).0)
  }

  ghost function BeginLogin(cfg: Config, s: State, call: nat, email: string, password: string): State {
    var r := Begun(cfg, s.t, s.clock, email, password);
    if Idle(s, call) && r.Comparing? then Park(s, call, LoginCall(r.attempt)) else s
  }

  ghost function CheckSession(cfg: Config, s: State, token: string): State {
    s.(t := Validated(cfg, s.t, s.clock, token).0)
  }

  ghost function EndSession(cfg: Config, s: State, token: string): State {
    s.(t := LoggedOut(cfg, s.t, s.clock, token).0)
  }

  ghost function AskDeletion(cfg: Config, s: State, u: Id, code: string, id: Id): State {
    s.(t := DeletionRequested(cfg, s.t, s.clock, u, code, id).0)
  }

  ghost function WithdrawDeletion(s: State, u: Id): State {
    s.(t := CancelledDeletion(s.t, s.clock, u).0)
  }

  ghost function AskRecovery(cfg: Config, s: State, email: string, token: string, id: Id): State {
    s.(t := PasswordRecovery.RecoveryRequested(cfg, s.t, s.clock, email, token, id))
  }

  ghost function BeginReset(cfg: Config, s: State, call: nat, token: string, password: string): State {
    var r := PasswordRecovery.ResetBegun(cfg, s.t, s.clock, token, password);
    if Idle(s, call) && r.Hashing? then Park(s, call, ResetCall(r.attempt)) else s
  }

  ghost function BeginTick(s: State, call: nat, queue: seq<Id>): State {
    if Idle(s, call) && IsQueue(s.t.notices, queue)
    then Park(s, call, NoticeCall(queue, map r | r in s.t.notices :: s.t.notices[r].retries)) else s
  }

  /** One action; an action that does not fit the state (an unknown or busy call id) changes nothing. */
  ghost function Step(cfg: Config, s: State, a: Action): State {
    match a
    case Advance(ms) => s.(clock := s.clock + ms)
    case SuspendUser(u) => AdminSuspends(s, u)
    case RegisterBegin(call, username, email) => BeginRegister(cfg, s, call, username, email)
    case RegisterEnd(call, id, hash) =>
      if call in s.calls && s.calls[call].RegisterCall? then EndRegister(cfg, s, call, id, hash) else s
    case IssueBegin(call, u) => BeginIssue(s, call, u)
    case IssueAsk(call) =>
      if call in s.calls && s.calls[call].AskCall? then AskIssue(cfg, s, call) else s
    case IssueArm(call) =>
      if call in s.calls && s.calls[call].ArmCall? then ArmIssue(cfg, s, call) else s
    case IssueStore(call, code, id) =>
      if call in s.calls && s.calls[call].IssueCall? then StoreIssue(cfg, s, call, code, id) else s
    case IssueClear(call) =>
      if call in s.calls && s.calls[call].IssueCall? then ClearIssue(s, call) else s
    case IssueNumber(call, code, id) =>
      if call in s.calls && s.calls[call].ClearedCall? then NumberIssue(cfg, s, call, code, id) else s
    case IssueInsert(call) =>
      if call in s.calls && s.calls[call].NumberedCall? then InsertIssue(s, call) else s
    case IssueMark(call, delivered) =>
      if call in s.calls && s.calls[call].DispatchCall? then MarkIssue(s, call, delivered) else s
    case VerifyOtp(u, code, fault) => SubmitOtp(cfg, s, u, code, fault)
    case AddActivationToken(id, row) => AddToken(s, id, row)
    case ActivateAccount(value, fault) => SubmitToken(s, value, fault)
    case LoginBegin(call, email, password) => BeginLogin(cfg, s, call, email, password)
    case LoginFinish(call, sid, token) =>
      if call in s.calls && s.calls[call].LoginCall? then FinishLogin(cfg, s, call, sid, token) else s
    case ValidateSession(token) => CheckSession(cfg, s, token)
    case Logout(token) => EndSession(cfg, s, token)
    case RequestDeletion(u, code, id) => AskDeletion(cfg, s, u, code, id)
    case ConfirmDeletion(u, code, noticeId, fault) => FinishDeletion(cfg, s, u, code, noticeId, fault)
    case CancelDeletion(u) => WithdrawDeletion(s, u)
    case RequestRecovery(email, token, id) => AskRecovery(cfg, s, email, token, id)
    case ResetBegin(call, token, password) => BeginReset(cfg, s, call, token, password)
    case ResetFinish(call, hash, fault) =>
      if call in s.calls && s.calls[call].ResetCall? then FinishReset(s, call, hash, fault) else s
    case NoticeTick(call, queue) => BeginTick(s, call, queue)
    case NoticeSettle(call, delivered) =>
      if call in s.calls && s.calls[call].NoticeCall? then SettleNotice(cfg, s, call, delivered) else s
  }

  /** The state a run reaches from `s`. */
  ghost function After(cfg: Config, s: State, run: seq<Action>): State {
    if run == [] then s else Step(cfg, After(cfg, s, run[..|run| - 1]), run[|run| - 1])
  }

  lemma {:induction false} AfterConcat(cfg: Config, s: State, run: seq<Action>, more: seq<Action>)
    ensures After(cfg, s, run + more) == After(cfg, After(cfg, s, run), more)
  {
    if more == [] {
      assert run + more == run;
    } else {
      var init := more[..|more| - 1];
      assert (run + more)[..|run + more| - 1] == run + init;
      AfterConcat(cfg, s, run, init);
    }
  }
}
