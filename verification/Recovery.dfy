/** Password recovery: token request, and the reset in its two segments around bcrypt. */
module PasswordRecovery {
  import opened Prelude
  import opened Schema
  import opened Database

  /** What a reset holds while bcrypt runs; `checkedAt` is the clock reading it will stamp later. */
  datatype Attempt = Attempt(requestId: Id, userId: Id, checkedAt: Time)
  datatype Begin = TokenNotFound | TokenExpired | PolicyViolation | Hashing(attempt: Attempt)

  ghost function RecoveryRequested(cfg: Config, t: Tables, now: Time, email: string, token: string, id: Id): Tables {
    match UserByEmail(t, email)
    case None => t
    case Some(u) =>
      var r := Exec(t, InsertRecovery(id, Recovery(u, token, now, now + cfg.recoveryTtlMs, false, None)));
      if r.Some? then r.value else t
  }

  ghost function ResetBegun(cfg: Config, t: Tables, now: Time, token: string, password: string): Begin {
    match RecoveryByToken(t, token)
    case None => TokenNotFound
    case Some(q) =>
      if t.recoveries[q].consumed || now > t.recoveries[q].expiresAt then TokenExpired
      else if !cfg.policy(password) then PolicyViolation
      else Hashing(Attempt(q, t.recoveries[q].userId, now))
  }

  /** The three tables once the reset has committed. */
  function PasswordReplaced(t: Tables, a: Attempt, hash: string): Tables
    requires a.userId in t.users && a.requestId in t.recoveries
  {
    t.(users := t.users[a.userId := Changed(t.users[a.userId], ReplaceHash(hash))],
       recoveries := t.recoveries[
         a.requestId := t.recoveries[a.requestId].(consumed := true, consumedAt := Some(a.checkedAt))],
       sessions := SessionsCut(t.sessions, a.userId, a.checkedAt))
  }

  function ResetFinished(t: Tables, a: Attempt, hash: string, fault: int): Tables
    requires a.userId in t.users && a.requestId in t.recoveries
  {
    if 0 <= fault < 3 then t else PasswordReplaced(t, a, hash)
  }

  function HashAndToken(t: Tables, a: Attempt, hash: string): Tables
    requires a.userId in t.users && a.requestId in t.recoveries
  {
    t.(users := t.users[a.userId := Changed(t.users[a.userId], ReplaceHash(hash))],
       recoveries := t.recoveries[
         a.requestId := t.recoveries[a.requestId].(consumed := true, consumedAt := Some(a.checkedAt))])
  }

  lemma FirstTwoRun(t: Tables, a: Attempt, hash: string)
    requires a.userId in t.users && a.requestId in t.recoveries
    ensures ExecAll(t, [UpdateUser(a.userId, ReplaceHash(hash)), ConsumeRecovery(a.requestId, a.checkedAt)])
         == Some(HashAndToken(t, a, hash))
  {
    var first, second := UpdateUser(a.userId, ReplaceHash(hash)), ConsumeRecovery(a.requestId, a.checkedAt);
    UpdateRunsFirst(t, a.userId, ReplaceHash(hash));
    var t1 := t.(users := t.users[a.userId := Changed(t.users[a.userId], ReplaceHash(hash))]);
    ConsumeRuns(t1, a.requestId, a.checkedAt);
    ExecAppend(t, [first], second);
    assert [first] + [second] == [first, second];
  }

  /** The transaction's three statements yield exactly the replaced tables. */
  lemma ResetStatementsReplace(t: Tables, a: Attempt, hash: string)
    requires a.userId in t.users && a.requestId in t.recoveries
    ensures ExecAll(t, ResetStatements(a, hash)) == Some(PasswordReplaced(t, a, hash))
  {
    var init := [UpdateUser(a.userId, ReplaceHash(hash)), ConsumeRecovery(a.requestId, a.checkedAt)];
    var last := InvalidateSessionsOf(a.userId, a.checkedAt);
    FirstTwoRun(t, a, hash);
    CutRuns(HashAndToken(t, a, hash), a.userId, a.checkedAt);
    ExecAppend(t, init, last);
    assert init + [last] == ResetStatements(a, hash);
  }

  function ResetStatements(a: Attempt, hash: string): seq<Statement> {
    [UpdateUser(a.userId, ReplaceHash(hash)), ConsumeRecovery(a.requestId, a.checkedAt),
     InvalidateSessionsOf(a.userId, a.checkedAt)]
  }

  class PasswordRecoveryService {
    const cfg: Config
    const database: Database

    constructor (cfg: Config, database: Database)
      ensures this.cfg == cfg && this.database == database
    {
      this.cfg, this.database := cfg, database;
    }

    method RequestRecovery(now: Time, email: string, token: string, id: Id)
      requires database.Valid()
      modifies database
      ensures database.Valid()
      ensures database.tables == RecoveryRequested(cfg, old(database.tables), now, email, token, id)
    {
      var found := database.FindUserByEmail(email);
      if found.None? {
        return;
      }
      var _ := database.Run(
        InsertRecovery(id, Recovery(found.value, token, now, now + cfg.recoveryTtlMs, false, None)));
    }

    method ResetUpToHash(now: Time, token: string, password: string) returns (r: Begin)
      requires database.Valid()
      ensures r == ResetBegun(cfg, database.tables, now, token, password)
      ensures r.Hashing? ==>
                && r.attempt.requestId in database.tables.recoveries && cfg.policy(password)
                && var row := database.tables.recoveries[r.attempt.requestId];
                   row.token == token && !row.consumed && now <= row.expiresAt && row.userId == r.attempt.userId
    {
      var found := database.FindRecovery(token);
      if found.None? {
        return TokenNotFound;
      }
      var request := database.tables.recoveries[found.value];
      if request.consumed || now > request.expiresAt {
        return TokenExpired;
      }
      if !cfg.policy(password) {
        return PolicyViolation;
      }
      return Hashing(Attempt(found.value, request.userId, now));
    }

    method ResetAfterHash(a: Attempt, hash: string, fault: int) returns (committed: bool)
      requires database.Valid()
      requires a.userId in database.tables.users && a.requestId in database.tables.recoveries
      modifies database
      ensures database.Valid()
      ensures database.tables == ResetFinished(old(database.tables), a, hash, fault)
      ensures committed <==> !(0 <= fault < 3)
    {
      ResetStatementsReplace(database.tables, a, hash);
      committed := database.WithTransaction(ResetStatements(a, hash), fault);
    }
  }
}
