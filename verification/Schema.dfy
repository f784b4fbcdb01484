/**
 * The tables, every SQL write the repositories and services issue against them, and the lookups they use.
 * Tables are maps from primary key to row; unique indexes and foreign keys are guards on the writes.
 */
module Schema {
  import opened Prelude

  /** Milliseconds since the epoch. */
  type Time = int

  predicate IdChar(c: char) {
    c == '-' || '0' <= c <= '9' || 'a' <= c <= 'f'
  }

  /** Primary keys: the text form of a UUID, lower-case hexadecimal with hyphens. */
  type Id = s: string | forall c | c in s :: IdChar(c) witness "0"

  /** Tunables and the functions the services only compare results of. */
  datatype Config = Config(
    threshold: int, lockoutMs: int, sessionMs: int,
    otpTtlMs: int, deletionTtlMs: int, recoveryTtlMs: int, maxRetries: int, quota: nat, windowMs: int,
    hmac: string -> string, sha: string -> string, matches: (string, string) -> bool,
    policy: string -> bool, trim: string -> string, lower: string -> string)

  /** Account states in the only order in which an account may pass through them. */
  datatype Status = Pending | Active | Suspended | Deleted {
    function Rank(): nat {
      match this
      case Pending => 0
      case Active => 1
      case Suspended => 2
      case Deleted => 3
    }
  }

  datatype User = User(
    username: string, normalised: string, email: string, passwordHash: string, status: Status, registeredAt: Time,
    activatedAt: Option<Time>, failedLogins: nat, lockedUntil: Option<Time>, lastLoginAt: Option<Time>,
    deletedAt: Option<Time>)

  datatype Session = Session(
    userId: Id, tokenHash: string, createdAt: Time, expiresAt: Time, invalidated: bool, invalidatedAt: Option<Time>)

  datatype OtpStatus = OtpPending | OtpDelivered | OtpFailed

  datatype Otp = Otp(
    userId: Id, email: string, codeHash: string, status: OtpStatus, createdAt: Time, expiresAt: Time,
    invalidatedAt: Option<Time>, sequence: nat)

  datatype RequestStatus = Waiting | Confirmed | Cancelled

  datatype DeletionRequest = DeletionRequest(
    userId: Id, codeHash: string, issuedAt: Time, expiresAt: Time, status: RequestStatus,
    confirmedAt: Option<Time>, cancelledAt: Option<Time>)

  datatype Recovery = Recovery(
    userId: Id, token: string, requestedAt: Time, expiresAt: Time, consumed: bool, consumedAt: Option<Time>)

  datatype ActivationToken = ActivationToken(
    userId: Id, value: string, issuedAt: Time, expiresAt: Time, consumed: bool, consumedAt: Option<Time>)

  datatype Delivery = Queued | Sent | Failed

  /** A row of either outbox table; `extra` is the deletion date or the activation token id. */
  datatype Record<P> = Record(
    userId: Id, recipient: string, dispatchAt: Time, delivery: Delivery, retries: nat, extra: P)

  type Notice = Record<Time>
  type Email = Record<Option<Id>>

  datatype Tables = Tables(
    users: map<Id, User>, sessions: map<Id, Session>, otps: map<Id, Otp>, requests: map<Id, DeletionRequest>,
    recoveries: map<Id, Recovery>, tokens: map<Id, ActivationToken>, notices: map<Id, Notice>, emails: map<Id, Email>)

  const EMPTY := Tables(map[], map[], map[], map[], map[], map[], map[], map[])

  // ---------------------------------------------------------------------------------------------- writes

  /** The columns an UPDATE on one users row sets. */
  datatype UserChange =
    | Activate(at: Time)
    | Suspend
    | CountFailure
    | ResetFailures
    | LockUntil(until: Time)
    | StampLogin(at: Time)
    | ReplaceHash(hash: string)
    | Anonymise(email: string, username: string, normalised: string, at: Time)

  function Changed(row: User, c: UserChange): User {
    match c
    case Activate(at) => row.(status := Active, activatedAt := Some(at))
    case Suspend => row.(status := Suspended)
    case CountFailure => row.(failedLogins := row.failedLogins + 1)
    case ResetFailures => row.(failedLogins := 0)
    case LockUntil(until) => row.(lockedUntil := Some(until))
    case StampLogin(at) => row.(lastLoginAt := Some(at))
    case ReplaceHash(hash) => row.(passwordHash := hash)
    case Anonymise(email, username, normalised, at) =>
      row.(status := Deleted, email := email, username := username, normalised := normalised, deletedAt := Some(at))
  }

  datatype Statement =
    | InsertUser(id: Id, user: User)
    | UpdateUser(id: Id, change: UserChange)
    | InsertSession(id: Id, session: Session)
    | InvalidateSession(id: Id, at: Time)
    | InvalidateSessionsOf(userId: Id, at: Time)
    | InsertOtp(id: Id, otp: Otp)
    | InvalidateOtp(id: Id, at: Time)
    | InvalidateOtpsOf(userId: Id, at: Time)
    | MarkOtp(id: Id, status: OtpStatus)
    | InsertRequest(id: Id, request: DeletionRequest)
    | ConfirmRequest(id: Id, at: Time)
    | CancelRequest(id: Id, at: Time)
    | InsertRecovery(id: Id, recovery: Recovery)
    | ConsumeRecovery(id: Id, at: Time)
    | InsertToken(id: Id, token: ActivationToken)
    | ConsumeToken(id: Id, at: Time)
    | InsertNotice(id: Id, notice: Notice)
    | SetNotice(id: Id, delivery: Delivery)
    | RetryNotice(id: Id)
    | InsertEmail(id: Id, email: Email)
    | SetEmail(id: Id, delivery: Delivery)
    | RetryEmail(id: Id)

  /** No row other than `id` holds this normalised username or this email (the two unique indexes on users). */
  predicate NamesFree(users: map<Id, User>, id: Id, normalised: string, email: string) {
    forall v | v in users && v != id :: users[v].normalised != normalised && users[v].email != email
  }

  /** At most one row per user may be active (the partial unique index on otp_requests). */
  predicate NoActiveOtp(otps: map<Id, Otp>, userId: Id) {
    forall o | o in otps && otps[o].userId == userId :: otps[o].invalidatedAt.Some?
  }

  function SessionsCut(sessions: map<Id, Session>, userId: Id, at: Time): map<Id, Session> {
    map s | s in sessions ::
      if sessions[s].userId == userId && !sessions[s].invalidated
      then sessions[s].(invalidated := true, invalidatedAt := Some(at)) else sessions[s]
  }

  function OtpsCut(otps: map<Id, Otp>, userId: Id, at: Time): map<Id, Otp> {
    map o | o in otps ::
      if otps[o].userId == userId && otps[o].invalidatedAt.None?
      then otps[o].(invalidatedAt := Some(at)) else otps[o]
  }

  // One function per table: the table after a statement, None when a primary key, unique index or foreign key refuses
  // it. A statement leaves every table but its own alone.

  function UsersAfter(users: map<Id, User>, s: Statement): Option<map<Id, User>> {
    match s
    case InsertUser(id, row) =>
      if id !in users && NamesFree(users, id, row.normalised, row.email) then Some(users[id := row]) else None
    case UpdateUser(id, change) =>
      if id !in users then Some(users)
      else if change.Anonymise? && !NamesFree(users, id, change.normalised, change.email) then None
      else Some(users[id := Changed(users[id], change)])
    case _ => Some(users)
  }

  function SessionsAfter(owners: set<Id>, sessions: map<Id, Session>, s: Statement): Option<map<Id, Session>> {
    match s
    case InsertSession(id, row) =>
      if id !in sessions && row.userId in owners && (forall r | r in sessions :: sessions[r].tokenHash != row.tokenHash)
      then Some(sessions[id := row]) else None
    case InvalidateSession(id, at) =>
      if id !in sessions then Some(sessions)
      else Some(sessions[id := sessions[id].(invalidated := true, invalidatedAt := Some(at))])
    case InvalidateSessionsOf(userId, at) => Some(SessionsCut(sessions, userId, at))
    case _ => Some(sessions)
  }

  function OtpsAfter(owners: set<Id>, otps: map<Id, Otp>, s: Statement): Option<map<Id, Otp>> {
    match s
    case InsertOtp(id, row) =>
      if id !in otps && row.userId in owners && (row.invalidatedAt.Some? || NoActiveOtp(otps, row.userId))
      then Some(otps[id := row]) else None
    case InvalidateOtp(id, at) =>
      if id !in otps then Some(otps) else Some(otps[id := otps[id].(invalidatedAt := Some(at))])
    case InvalidateOtpsOf(userId, at) => Some(OtpsCut(otps, userId, at))
    case MarkOtp(id, status) =>
      if id !in otps then Some(otps) else Some(otps[id := otps[id].(status := status)])
    case _ => Some(otps)
  }

  function RequestsAfter(owners: set<Id>, requests: map<Id, DeletionRequest>, s: Statement)
    : Option<map<Id, DeletionRequest>>
  {
    match s
    case InsertRequest(id, row) =>
      if id !in requests && row.userId in owners then Some(requests[id := row]) else None
    case ConfirmRequest(id, at) =>
      if id !in requests then Some(requests)
      else Some(requests[id := requests[id].(status := Confirmed, confirmedAt := Some(at))])
    case CancelRequest(id, at) =>
      if id !in requests then Some(requests)
      else Some(requests[id := requests[id].(status := Cancelled, cancelledAt := Some(at))])
    case _ => Some(requests)
  }

  function RecoveriesAfter(owners: set<Id>, recoveries: map<Id, Recovery>, s: Statement): Option<map<Id, Recovery>> {
    match s
    case InsertRecovery(id, row) =>
      if id !in recoveries && row.userId in owners && (forall r | r in recoveries :: recoveries[r].token != row.token)
      then Some(recoveries[id := row]) else None
    case ConsumeRecovery(id, at) =>
      if id !in recoveries then Some(recoveries)
      else Some(recoveries[id := recoveries[id].(consumed := true, consumedAt := Some(at))])
    case _ => Some(recoveries)
  }

  function TokensAfter(owners: set<Id>, tokens: map<Id, ActivationToken>, s: Statement)
    : Option<map<Id, ActivationToken>>
  {
    match s
    case InsertToken(id, row) =>
      if id !in tokens && row.userId in owners
         && (forall k | k in tokens :: tokens[k].value != row.value && tokens[k].userId != row.userId)
      then Some(tokens[id := row]) else None
    case ConsumeToken(id, at) =>
      if id !in tokens then Some(tokens)
      else Some(tokens[id := tokens[id].(consumed := true, consumedAt := Some(at))])
    case _ => Some(tokens)
  }

  function NoticesAfter(notices: map<Id, Notice>, s: Statement): Option<map<Id, Notice>> {
    match s
    case InsertNotice(id, row) => if id !in notices then Some(notices[id := row]) else None
    case SetNotice(id, delivery) =>
      if id !in notices then Some(notices) else Some(notices[id := notices[id].(delivery := delivery)])
    case RetryNotice(id) =>
      if id !in notices then Some(notices) else Some(notices[id := notices[id].(retries := notices[id].retries + 1)])
    case _ => Some(notices)
  }

  function EmailsAfter(owners: set<Id>, emails: map<Id, Email>, s: Statement): Option<map<Id, Email>> {
    match s
    case InsertEmail(id, row) =>
      if id !in emails && row.userId in owners && (forall e | e in emails :: emails[e].userId != row.userId)
      then Some(emails[id := row]) else None
    case SetEmail(id, delivery) =>
      if id !in emails then Some(emails) else Some(emails[id := emails[id].(delivery := delivery)])
    case RetryEmail(id) =>
      if id !in emails then Some(emails) else Some(emails[id := emails[id].(retries := emails[id].retries + 1)])
    case _ => Some(emails)
  }

  /** Run one write: the new tables, or None when it is refused. */
  function Exec(t: Tables, s: Statement): Option<Tables> {
    var owners := t.users.Keys;
    var users, sessions := UsersAfter(t.users, s), SessionsAfter(owners, t.sessions, s);
    var otps, requests := OtpsAfter(owners, t.otps, s), RequestsAfter(owners, t.requests, s);
    var recoveries, tokens := RecoveriesAfter(owners, t.recoveries, s), TokensAfter(owners, t.tokens, s);
    var notices, emails := NoticesAfter(t.notices, s), EmailsAfter(owners, t.emails, s);
    if users.None? || sessions.None? || otps.None? || requests.None? || recoveries.None? || tokens.None?
       || notices.None? || emails.None?
    then None
    else Some(Tables(users.value, sessions.value, otps.value, requests.value, recoveries.value, tokens.value,
                     notices.value, emails.value))
  }

  /** The statements in order; None as soon as one is refused. */
  function ExecAll(t: Tables, ss: seq<Statement>): Option<Tables> {
    if ss == [] then Some(t)
    else
      match ExecAll(t, ss[..|ss| - 1])
      case None => None
      case Some(before) => Exec(before, ss[|ss| - 1])
  }

  // ------------------------------------------------------------------------------------------- consistency

  function Then(t: Option<Tables>, s: Statement): Option<Tables> {
    if t.None? then None else Exec(t.value, s)
  }

  lemma ExecAppend(t: Tables, ss: seq<Statement>, last: Statement)
    ensures ExecAll(t, ss + [last]) == Then(ExecAll(t, ss), last)
  {
    assert (ss + [last])[..|ss|] == ss;
  }

  lemma ExecOne(t: Tables, a: Statement)
    ensures ExecAll(t, [a]) == Exec(t, a)
  {
    ExecAppend(t, [], a);
    assert [] + [a] == [a];
  }

  lemma ExecTwo(t: Tables, a: Statement, b: Statement)
    ensures ExecAll(t, [a, b]) == Then(Exec(t, a), b)
  {
    ExecOne(t, a);
    ExecAppend(t, [a], b);
    assert [a] + [b] == [a, b];
  }

  lemma ExecThree(t: Tables, a: Statement, b: Statement, c: Statement)
    ensures ExecAll(t, [a, b, c]) == Then(Then(Exec(t, a), b), c)
  {
    ExecTwo(t, a, b);
    ExecAppend(t, [a, b], c);
    assert [a, b] + [c] == [a, b, c];
  }

  lemma ExecFour(t: Tables, a: Statement, b: Statement, c: Statement, d: Statement)
    ensures ExecAll(t, [a, b, c, d]) == Then(Then(Then(Exec(t, a), b), c), d)
  {
    ExecThree(t, a, b, c);
    ExecAppend(t, [a, b, c], d);
    assert [a, b, c] + [d] == [a, b, c, d];
  }

  // What the indexes, the foreign keys, and the one service-level rule without an index (one waiting deletion
  // request per user) guarantee: every lookup below finds at most one row, and owners exist.

  ghost predicate UsersDistinct(users: map<Id, User>) {
    forall u, v | u in users && v in users && u != v ::
      users[u].normalised != users[v].normalised && users[u].email != users[v].email
  }

  ghost predicate SessionsOk(owners: set<Id>, sessions: map<Id, Session>) {
    && (forall s | s in sessions :: sessions[s].userId in owners)
    && (forall s, r | s in sessions && r in sessions && s != r :: sessions[s].tokenHash != sessions[r].tokenHash)
  }

  ghost predicate OtpsOk(owners: set<Id>, otps: map<Id, Otp>) {
    && (forall o | o in otps :: otps[o].userId in owners)
    && (forall o, p | o in otps && p in otps && o != p && otps[o].invalidatedAt.None? && otps[p].invalidatedAt.None? ::
          otps[o].userId != otps[p].userId)
  }

  ghost predicate RequestsOk(owners: set<Id>, requests: map<Id, DeletionRequest>) {
    && (forall r | r in requests :: requests[r].userId in owners)
    && (forall q, r | q in requests && r in requests && q != r && requests[q].status == Waiting
                      && requests[r].status == Waiting :: requests[q].userId != requests[r].userId)
  }

  ghost predicate RecoveriesOk(owners: set<Id>, recoveries: map<Id, Recovery>) {
    && (forall r | r in recoveries :: recoveries[r].userId in owners)
    && (forall q, r | q in recoveries && r in recoveries && q != r :: recoveries[q].token != recoveries[r].token)
  }

  ghost predicate TokensOk(owners: set<Id>, tokens: map<Id, ActivationToken>) {
    && (forall k | k in tokens :: tokens[k].userId in owners)
    && (forall k, l | k in tokens && l in tokens && k != l :: tokens[k].value != tokens[l].value)
  }

  datatype Part = UsersPart | SessionsPart | OtpsPart | RequestsPart | RecoveriesPart | TokensPart

  ghost predicate PartOk(t: Tables, p: Part) {
    match p
    case UsersPart => UsersDistinct(t.users)
    case SessionsPart => SessionsOk(t.users.Keys, t.sessions)
    case OtpsPart => OtpsOk(t.users.Keys, t.otps)
    case RequestsPart => RequestsOk(t.users.Keys, t.requests)
    case RecoveriesPart => RecoveriesOk(t.users.Keys, t.recoveries)
    case TokensPart => TokensOk(t.users.Keys, t.tokens)
  }

  /** Stated part by part, so that a proof unfolds only the part it names. */
  ghost predicate Consistent(t: Tables) {
    forall p :: PartOk(t, p)
  }

  /** The one rule the schema leaves to the service: a new waiting request needs the user to have none. */
  ghost predicate Admissible(t: Tables, s: Statement) {
    s.InsertRequest? ==> RequestOf(t, s.request.userId).None?
  }

  /** Every write keeps the tables consistent, given that one rule. */
  lemma ExecKeepsConsistent(t: Tables, s: Statement)
    requires Consistent(t) && Admissible(t, s) && Exec(t, s).Some?
    ensures Consistent(Exec(t, s).value)
  {
    var t' := Exec(t, s).value;
    var owners, owners' := t.users.Keys, t'.users.Keys;
    UsersStayDistinct(t.users, s);
    forall p ensures PartOk(t', p) {
      assert PartOk(t, p);
      match p
      case UsersPart =>
      case SessionsPart => SessionsStayOk(owners, owners', t.sessions, s);
      case OtpsPart => OtpsStayOk(owners, owners', t.otps, s);
      case RequestsPart => RequestsStayOk(owners, owners', t, s);
      case RecoveriesPart => RecoveriesStayOk(owners, owners', t.recoveries, s);
      case TokensPart => TokensStayOk(owners, owners', t.tokens, s);
    }
  }

  lemma UsersStayDistinct(users: map<Id, User>, s: Statement)
    requires UsersAfter(users, s).Some?
    ensures users.Keys <= UsersAfter(users, s).value.Keys
    ensures UsersDistinct(users) ==> UsersDistinct(UsersAfter(users, s).value)
  {
    if UsersDistinct(users) {
      match s
      case InsertUser(id, row) => RowKeepsNamesDistinct(users, id, row);
      case UpdateUser(id, change) =>
        if id in users {
          RowKeepsNamesDistinct(users, id, Changed(users[id], change));
        }
      case _ =>
    }
  }

  /** A row whose names no other row holds can be written. */
  lemma RowKeepsNamesDistinct(users: map<Id, User>, id: Id, row: User)
    requires UsersDistinct(users)
    requires NamesFree(users, id, row.normalised, row.email)
             || (id in users && users[id].normalised == row.normalised && users[id].email == row.email)
    ensures UsersDistinct(users[id := row])
  {
    var users' := users[id := row];
    forall v, w | v in users' && w in users' && v != w
      ensures users'[v].normalised != users'[w].normalised && users'[v].email != users'[w].email
    {
      if v != id && w != id {
        assert users[v].normalised != users[w].normalised && users[v].email != users[w].email;
      } else if v == id {
        NamesDiffer(users, id, row, w);
      } else {
        NamesDiffer(users, id, row, v);
      }
    }
  }

  lemma NamesDiffer(users: map<Id, User>, id: Id, row: User, v: Id)
    requires UsersDistinct(users) && v in users && v != id
    requires NamesFree(users, id, row.normalised, row.email)
             || (id in users && users[id].normalised == row.normalised && users[id].email == row.email)
    ensures users[v].normalised != row.normalised && users[v].email != row.email
  {
  }

  lemma CutRuns(t: Tables, userId: Id, at: Time)
    ensures Exec(t, InvalidateSessionsOf(userId, at)) == Some(t.(sessions := SessionsCut(t.sessions, userId, at)))
  {
  }

  lemma ConsumeRuns(t: Tables, q: Id, at: Time)
    requires q in t.recoveries
    ensures Exec(t, ConsumeRecovery(q, at))
         == Some(t.(recoveries := t.recoveries[q := t.recoveries[q].(consumed := true, consumedAt := Some(at))]))
  {
  }

  lemma ConfirmRuns(t: Tables, r: Id, at: Time)
    requires r in t.requests
    ensures Exec(t, ConfirmRequest(r, at))
         == Some(t.(requests := t.requests[r := t.requests[r].(status := Confirmed, confirmedAt := Some(at))]))
  {
  }

  lemma NoticeRuns(t: Tables, n: Id, row: Notice)
    ensures Exec(t, InsertNotice(n, row))
         == if n in t.notices then None else Some(t.(notices := t.notices[n := row]))
  {
  }

  /** A plain update of one users row always runs. */
  lemma UpdateRuns(t: Tables, u: Id, change: UserChange)
    requires u in t.users && !change.Anonymise?
    ensures Exec(t, UpdateUser(u, change)) == Some(t.(users := t.users[u := Changed(t.users[u], change)]))
  {
  }

  lemma UpdateRunsFirst(t: Tables, u: Id, change: UserChange)
    requires u in t.users && !change.Anonymise?
    ensures ExecAll(t, [UpdateUser(u, change)]) == Some(t.(users := t.users[u := Changed(t.users[u], change)]))
  {
    UpdateRuns(t, u, change);
    ExecOne(t, UpdateUser(u, change));
  }

  lemma SpendRuns(t: Tables, k: Id, at: Time)
    requires k in t.tokens
    ensures Exec(t, ConsumeToken(k, at))
         == Some(t.(tokens := t.tokens[k := t.tokens[k].(consumed := true, consumedAt := Some(at))]))
  {
  }

  lemma SessionsStayOk(owners: set<Id>, owners': set<Id>, sessions: map<Id, Session>, s: Statement)
    requires SessionsOk(owners, sessions) && owners <= owners' && SessionsAfter(owners, sessions, s).Some?
    ensures SessionsOk(owners', SessionsAfter(owners, sessions, s).value)
  {
  }

  lemma OtpsStayOk(owners: set<Id>, owners': set<Id>, otps: map<Id, Otp>, s: Statement)
    requires OtpsOk(owners, otps) && owners <= owners' && OtpsAfter(owners, otps, s).Some?
    ensures OtpsOk(owners', OtpsAfter(owners, otps, s).value)
  {
  }

  lemma RecoveriesStayOk(owners: set<Id>, owners': set<Id>, recoveries: map<Id, Recovery>, s: Statement)
    requires RecoveriesOk(owners, recoveries) && owners <= owners' && RecoveriesAfter(owners, recoveries, s).Some?
    ensures RecoveriesOk(owners', RecoveriesAfter(owners, recoveries, s).value)
  {
  }

  lemma TokensStayOk(owners: set<Id>, owners': set<Id>, tokens: map<Id, ActivationToken>, s: Statement)
    requires TokensOk(owners, tokens) && owners <= owners' && TokensAfter(owners, tokens, s).Some?
    ensures TokensOk(owners', TokensAfter(owners, tokens, s).value)
  {
  }

  lemma RequestsStayOk(owners: set<Id>, owners': set<Id>, t: Tables, s: Statement)
    requires RequestsOk(owners, t.requests) && owners <= owners' && Admissible(t, s)
    requires RequestsAfter(owners, t.requests, s).Some?
    ensures RequestsOk(owners', RequestsAfter(owners, t.requests, s).value)
  {
    if s.InsertRequest? {
      forall q | q in t.requests && t.requests[q].status == Waiting
        ensures t.requests[q].userId != s.request.userId
      {
        assert !WaitingRequest(t, s.request.userId, q);
      }
    }
  }

  // ---------------------------------------------------------------------------------------------- lookups

  ghost function UserByEmail(t: Tables, email: string): (r: Option<Id>)
    ensures r.Some? ==> r.value in t.users && t.users[r.value].email == email
    ensures r.None? ==> forall u | u in t.users :: t.users[u].email != email
  {
    if u: Id :| u in t.users && t.users[u].email == email then Some(u) else None
  }

  ghost function SessionByHash(t: Tables, hash: string): (r: Option<Id>)
    ensures r.Some? ==> r.value in t.sessions && t.sessions[r.value].tokenHash == hash
    ensures r.None? ==> forall s | s in t.sessions :: t.sessions[s].tokenHash != hash
  {
    if s: Id :| s in t.sessions && t.sessions[s].tokenHash == hash then Some(s) else None
  }

  ghost predicate ActiveOtp(t: Tables, userId: Id, o: Id) {
    o in t.otps && t.otps[o].userId == userId && t.otps[o].invalidatedAt.None?
  }

  ghost function OtpOf(t: Tables, userId: Id): (r: Option<Id>)
    ensures r.Some? ==> ActiveOtp(t, userId, r.value)
    ensures r.None? ==> forall o :: !ActiveOtp(t, userId, o)
  {
    if o: Id :| ActiveOtp(t, userId, o) then Some(o) else None
  }

  ghost predicate WaitingRequest(t: Tables, userId: Id, r: Id) {
    r in t.requests && t.requests[r].userId == userId && t.requests[r].status == Waiting
  }

  ghost function RequestOf(t: Tables, userId: Id): (r: Option<Id>)
    ensures r.Some? ==> WaitingRequest(t, userId, r.value)
    ensures r.None? ==> forall q :: !WaitingRequest(t, userId, q)
  {
    if q: Id :| WaitingRequest(t, userId, q) then Some(q) else None
  }

  ghost function RecoveryByToken(t: Tables, token: string): (r: Option<Id>)
    ensures r.Some? ==> r.value in t.recoveries && t.recoveries[r.value].token == token
    ensures r.None? ==> forall q | q in t.recoveries :: t.recoveries[q].token != token
  {
    if q: Id :| q in t.recoveries && t.recoveries[q].token == token then Some(q) else None
  }

  ghost function TokenByValue(t: Tables, value: string): (r: Option<Id>)
    ensures r.Some? ==> r.value in t.tokens && t.tokens[r.value].value == value
    ensures r.None? ==> forall k | k in t.tokens :: t.tokens[k].value != value
  {
    if k: Id :| k in t.tokens && t.tokens[k].value == value then Some(k) else None
  }

  /** The highest attempt sequence issued to the user so far, 0 when there is none. */
  ghost function LastSequence(t: Tables, userId: Id): (n: nat)
    ensures forall o | o in t.otps && t.otps[o].userId == userId :: t.otps[o].sequence <= n
    ensures n == 0 || exists o :: o in t.otps && t.otps[o].userId == userId && t.otps[o].sequence == n
  {
    var all := set o | o in t.otps && t.otps[o].userId == userId :: t.otps[o].sequence;
    assert forall o | o in t.otps && t.otps[o].userId == userId :: t.otps[o].sequence in all;
    MaxOf(all)
  }

  /** The rows `countActiveForUser` counts. */
  function LiveSessions(t: Tables, userId: Id, now: Time): set<Id> {
    set s | s in t.sessions && t.sessions[s].userId == userId && !t.sessions[s].invalidated
            && t.sessions[s].expiresAt > now
  }
}
