/** Session creation, validation with its cascade, and logout. */
module Sessions {
  import opened Prelude
  import opened Schema
  import opened Database

  datatype Refusal = NotFound | Expired | Invalidated | AccountSuspended
  datatype Validation = Valid(userId: Id) | Invalid(reason: Refusal)

  function NewSession(cfg: Config, userId: Id, token: string, now: Time): Session {
    Session(userId, cfg.sha(token), now, now + cfg.sessionMs, false, None)
  }

  /** No session row has this id or this token hash. */
  predicate TokenFree(t: Tables, sid: Id, hash: string) {
    sid !in t.sessions && forall r | r in t.sessions :: t.sessions[r].tokenHash != hash
  }

  /** The tables after a new session for `userId` is stored; None when the insert is refused. */
  function Created(cfg: Config, t: Tables, now: Time, userId: Id, sid: Id, token: string): Option<Tables> {
    Exec(t, InsertSession(sid, NewSession(cfg, userId, token, now)))
  }

  lemma CreatedShape(cfg: Config, t: Tables, now: Time, userId: Id, sid: Id, token: string)
    requires userId in t.users
    ensures Created(cfg, t, now, userId, sid, token)
         == if TokenFree(t, sid, cfg.sha(token))
            then Some(t.(sessions := t.sessions[sid := NewSession(cfg, userId, token, now)])) else None
  {
  }

  /** Whether the account owning a session row is missing or still active. */
  predicate OwnerActive(t: Tables, userId: Id) {
    userId in t.users ==> t.users[userId].status == Active
  }

  ghost function Validated(cfg: Config, t: Tables, now: Time, token: string): (Tables, Validation) {
    match SessionByHash(t, cfg.sha(token))
    case None => (t, Invalid(NotFound))
    case Some(s) =>
      var row := t.sessions[s];
      if now >= row.expiresAt then (t, Invalid(Expired))
      else if row.invalidated then (t, Invalid(Invalidated))
      else if !OwnerActive(t, row.userId)
      then (t.(sessions := SessionsCut(t.sessions, row.userId, now)), Invalid(AccountSuspended))
      else (t, Valid(row.userId))
  }

  /** Is this session row one a logout would still have to end? */
  predicate Open(t: Tables, s: Id, now: Time) {
    s in t.sessions && !t.sessions[s].invalidated && now < t.sessions[s].expiresAt
  }

  /** The tables after a logout, and whether the session was already terminated. */
  ghost function LoggedOut(cfg: Config, t: Tables, now: Time, token: string): (Tables, bool) {
    match SessionByHash(t, cfg.sha(token))
    case None => (t, true)
    case Some(s) =>
      if !Open(t, s, now) then (t, true)
      else (t.(sessions := t.sessions[s := t.sessions[s].(invalidated := true, invalidatedAt := Some(now))]), false)
  }

  class SessionService {
    const cfg: Config
    const database: Database

    constructor (cfg: Config, database: Database)
      ensures this.cfg == cfg && this.database == database
    {
      this.cfg, this.database := cfg, database;
    }

    method CreateSession(now: Time, userId: Id, sid: Id, token: string) returns (expiresAt: Option<Time>)
      requires database.Valid()
      modifies database
      ensures database.Valid()
      ensures var r := Created(cfg, old(database.tables), now, userId, sid, token);
              && database.tables == (if r.Some? then r.value else old(database.tables))
              && expiresAt == (if r.Some? then Some(now + cfg.sessionMs) else None)
      ensures expiresAt.Some? ==>
                sid in database.tables.sessions && database.tables.sessions[sid]
                                                   == Session(userId, cfg.sha(token), now, expiresAt.value, false, None)
    {
      var ok := database.Run(InsertSession(sid, NewSession(cfg, userId, token, now)));
      expiresAt := if ok then Some(now + cfg.sessionMs) else None;
    }

    method ValidateSession(now: Time, token: string) returns (r: Validation)
      requires database.Valid()
      modifies database
      ensures database.Valid()
      ensures (database.tables, r) == Validated(cfg, old(database.tables), now, token)
    {
      var found := database.FindSession(cfg.sha(token));
      if found.None? {
        return Invalid(NotFound);
      }
      var row := database.tables.sessions[found.value];
      if now >= row.expiresAt {
        return Invalid(Expired);
      }
      if row.invalidated {
        return Invalid(Invalidated);
      }
      if row.userId in database.tables.users && database.tables.users[row.userId].status != Active {
        var _ := database.Run(InvalidateSessionsOf(row.userId, now));
        return Invalid(AccountSuspended);
      }
      return Valid(row.userId);
    }

    method InvalidateSession(now: Time, token: string) returns (alreadyTerminated: bool)
      requires database.Valid()
      modifies database
      ensures database.Valid()
      ensures (database.tables, alreadyTerminated) == LoggedOut(cfg, old(database.tables), now, token)
    {
      var found := database.FindSession(cfg.sha(token));
      if found.None? {
        return true;
      }
      var row := database.tables.sessions[found.value];
      if row.invalidated || now >= row.expiresAt {
        return true;
      }
      var _ := database.Run(Statement.InvalidateSession(found.value, now));
      return false;
    }
  }
}
