/** Login in its two segments around the password comparison, and the lockout policy between them. */
module Auth {
  import opened Prelude
  import opened Schema
  import opened Database
  import Sessions

  /** What a login holds while it waits for bcrypt: the row it read is a snapshot from then on. */
  datatype Attempt = Attempt(userId: Id, failures: nat, matched: bool)

  datatype Begin = UnknownEmail | Locked(until: Time) | NotActive(status: Status) | Comparing(attempt: Attempt)
  datatype End = WrongPassword | SessionFailed | LoggedIn(expiresAt: Time)

  predicate LockedAt(row: User, now: Time) {
    row.lockedUntil.Some? && row.lockedUntil.value > now
  }

  /** Lookup, lockout check, status check; the comparison itself is decided by the hash read here. */
  ghost function Begun(cfg: Config, t: Tables, now: Time, email: string, password: string): Begin {
    match UserByEmail(t, email)
    case None => UnknownEmail
    case Some(u) =>
      var row := t.users[u];
      if LockedAt(row, now) then Locked(row.lockedUntil.value)
      else if row.status != Active then NotActive(row.status)
      else Comparing(Attempt(u, row.failedLogins, cfg.matches(password, row.passwordHash)))
  }

  /** The row after one more failure, given the failure count the caller had read earlier. */
  function AfterFailure(cfg: Config, row: User, snapshot: nat, now: Time): User {
    if snapshot + 1 >= cfg.threshold
    then row.(failedLogins := 0, lockedUntil := Some(now + cfg.lockoutMs))
    else row.(failedLogins := row.failedLogins + 1)
  }

  function WithUser(t: Tables, u: Id, row: User): Tables {
    t.(users := t.users[u := row])
  }

  function Resumed(cfg: Config, t: Tables, now: Time, p: Attempt, sid: Id, token: string): (Tables, End)
    requires p.userId in t.users
  {
    var row := t.users[p.userId];
    if !p.matched then (WithUser(t, p.userId, AfterFailure(cfg, row, p.failures, now)), WrongPassword)
    else
      var booked := WithUser(t, p.userId, row.(failedLogins := 0, lastLoginAt := Some(now)));
      match Sessions.Created(cfg, booked, now, p.userId, sid, token)
      case None => (booked, SessionFailed)
      case Some(after) => (after, LoggedIn(now + cfg.sessionMs))
  }

  /** After a matching password the bookkeeping always happens; the session is stored unless its id or hash is taken. */
  lemma SuccessShape(cfg: Config, t: Tables, now: Time, p: Attempt, sid: Id, token: string)
    requires p.userId in t.users && p.matched
    ensures var booked := t.users[p.userId].(failedLogins := 0, lastLoginAt := Some(now));
            Resumed(cfg, t, now, p, sid, token)
            == if Sessions.TokenFree(t, sid, cfg.sha(token))
               then (t.(users := t.users[p.userId := booked],
                        sessions := t.sessions[sid := Sessions.NewSession(cfg, p.userId, token, now)]),
                     LoggedIn(now + cfg.sessionMs))
               else (WithUser(t, p.userId, booked), SessionFailed)
  {
    var booked := WithUser(t, p.userId, t.users[p.userId].(failedLogins := 0, lastLoginAt := Some(now)));
    Sessions.CreatedShape(cfg, booked, now, p.userId, sid, token);
  }

  class LoginGuard {
    const cfg: Config
    const database: Database

    constructor (cfg: Config, database: Database)
      ensures this.cfg == cfg && this.database == database
    {
      this.cfg, this.database := cfg, database;
    }

    /** Throws (Some) only while the lock lies strictly in the future. */
    method CheckLockout(now: Time, row: User) returns (lockedUntil: Option<Time>)
      ensures lockedUntil == if LockedAt(row, now) then row.lockedUntil else None
    {
      lockedUntil := None;
      if row.lockedUntil != None && row.lockedUntil.value > now {
        lockedUntil := row.lockedUntil;
      }
    }

    method RegisterFailure(now: Time, userId: Id, snapshot: nat)
      requires database.Valid() && userId in database.tables.users
      modifies database
      ensures database.Valid()
      ensures var was := old(database.tables);
              database.tables == WithUser(was, userId, AfterFailure(cfg, was.users[userId], snapshot, now))
    {
      database.SetUser(userId, CountFailure);
      var nextCount := snapshot + 1;
      if nextCount >= cfg.threshold {
        database.SetUser(userId, LockUntil(now + cfg.lockoutMs));
        database.SetUser(userId, ResetFailures);
      }
    }
  }

  class AuthService {
    const cfg: Config
    const database: Database
    const loginGuard: LoginGuard
    const sessions: Sessions.SessionService

    ghost predicate Wired() {
      && loginGuard.cfg == cfg && loginGuard.database == database
      && sessions.cfg == cfg && sessions.database == database
    }

    constructor (cfg: Config, database: Database, loginGuard: LoginGuard, sessions: Sessions.SessionService)
      requires loginGuard.cfg == sessions.cfg == cfg && loginGuard.database == sessions.database == database
      ensures Wired() && this.cfg == cfg && this.database == database
    {
      this.cfg, this.database, this.loginGuard, this.sessions := cfg, database, loginGuard, sessions;
    }

    method LoginUpToComparison(now: Time, email: string, password: string) returns (r: Begin)
      requires database.Valid() && Wired()
      ensures r == Begun(cfg, database.tables, now, email, password)
    {
      var found := database.FindUserByEmail(email);
      if found.None? {
        return UnknownEmail;
      }
      var row := database.tables.users[found.value];
      var lockedUntil := loginGuard.CheckLockout(now, row);
      if lockedUntil.Some? {
        return Locked(lockedUntil.value);
      }
      if row.status != Active {
        return NotActive(row.status);
      }
      return Comparing(Attempt(found.value, row.failedLogins, cfg.matches(password, row.passwordHash)));
    }

    method LoginAfterComparison(now: Time, p: Attempt, sid: Id, token: string) returns (r: End)
      requires database.Valid() && Wired() && p.userId in database.tables.users
      modifies database
      ensures database.Valid()
      ensures (database.tables, r) == Resumed(cfg, old(database.tables), now, p, sid, token)
    {
      if !p.matched {
        loginGuard.RegisterFailure(now, p.userId, p.failures);
        return WrongPassword;
      }
      database.SetUser(p.userId, ResetFailures);
      database.SetUser(p.userId, StampLogin(now));
      ghost var was := old(database.tables);
      assert database.tables
          == WithUser(was, p.userId, was.users[p.userId].(failedLogins := 0, lastLoginAt := Some(now)));
      var expiresAt := sessions.CreateSession(now, p.userId, sid, token);
      if expiresAt.None? {
        return SessionFailed;
      }
      return LoggedIn(expiresAt.value);
    }
  }
}
