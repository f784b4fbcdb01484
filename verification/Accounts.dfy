/** Registration and token activation. */
module Accounts {
  import opened Prelude
  import opened Schema
  import opened Database

  function Normalised(cfg: Config, username: string): string {
    cfg.lower(cfg.trim(username))
  }

  function NewUser(cfg: Config, username: string, email: string, hash: string, now: Time): User {
    User(username, Normalised(cfg, username), email, hash, Pending, now, None, 0, None, None, None)
  }

  /** The insert after bcrypt; refused when the id, the normalised name or the email is already there. */
  function Registered(cfg: Config, t: Tables, now: Time, id: Id, username: string, email: string, hash: string)
    : (Tables, bool)
  {
    if id in t.users || !NamesFree(t.users, id, Normalised(cfg, username), email) then (t, false)
    else (t.(users := t.users[id := NewUser(cfg, username, email, hash, now)]), true)
  }

  /** What `register` answers: any failure that does not name the username index is passed on as it is. */
  datatype RegisterEnd = Created | UsernameConflict | OtherFailure

  predicate NameClash(t: Tables, normalised: string) {
    exists v | v in t.users :: t.users[v].normalised == normalised
  }

  predicate OtherClash(t: Tables, id: Id, email: string) {
    id in t.users || exists v | v in t.users :: t.users[v].email == email
  }

  /** The insert is refused exactly when the name, the email or the id is taken. */
  lemma RefusedExactly(cfg: Config, t: Tables, now: Time, id: Id, username: string, email: string, hash: string)
    ensures Registered(cfg, t, now, id, username, email, hash).1 <==>
              !NameClash(t, Normalised(cfg, username)) && !OtherClash(t, id, email)
  {
  }

  datatype ActivateEnd = TokenNotFound | TokenExpired | TokenConsumed | AccountNotPending | Aborted | Activated(u: Id)

  function TokenSpent(t: Tables, k: Id, now: Time): Tables
    requires k in t.tokens && t.tokens[k].userId in t.users
  {
    var u := t.tokens[k].userId;
    t.(users := t.users[u := Changed(t.users[u], Activate(now))],
       tokens := t.tokens[k := t.tokens[k].(consumed := true, consumedAt := Some(now))])
  }

  function ActivationStatements(u: Id, k: Id, now: Time): seq<Statement> {
    [UpdateUser(u, UserChange.Activate(now)), ConsumeToken(k, now)]
  }

  /** The transaction's two statements always run, and activate the account and spend the token. */
  lemma ActivationStatementsSpend(t: Tables, k: Id, now: Time)
    requires k in t.tokens && t.tokens[k].userId in t.users
    ensures ExecAll(t, ActivationStatements(t.tokens[k].userId, k, now)) == Some(TokenSpent(t, k, now))
  {
    var u, change := t.tokens[k].userId, UserChange.Activate(now);
    UpdateRunsFirst(t, u, change);
    SpendRuns(t.(users := t.users[u := Changed(t.users[u], change)]), k, now);
    ExecAppend(t, [UpdateUser(u, change)], ConsumeToken(k, now));
    assert [UpdateUser(u, change)] + [ConsumeToken(k, now)] == ActivationStatements(u, k, now);
  }

  ghost function Activation(t: Tables, now: Time, value: string, fault: int): (Tables, ActivateEnd) {
    match TokenByValue(t, value)
    case None => (t, TokenNotFound)
    case Some(k) =>
      var u := t.tokens[k].userId;
      if now > t.tokens[k].expiresAt then (t, TokenExpired)
      else if t.tokens[k].consumed then (t, TokenConsumed)
      else if u !in t.users || t.users[u].status != Pending then (t, AccountNotPending)
      else if 0 <= fault < 2 then (t, Aborted)
      else (TokenSpent(t, k, now), Activated(u))
  }

  class RegistrationService {
    const cfg: Config
    const database: Database

    constructor (cfg: Config, database: Database)
      ensures this.cfg == cfg && this.database == database
    {
      this.cfg, this.database := cfg, database;
    }

    /** `namedFirst` is whether the database names the username index when more than one constraint is violated. */
    method Register(now: Time, id: Id, username: string, email: string, hash: string, namedFirst: bool)
      returns (r: RegisterEnd)
      requires database.Valid()
      modifies database
      ensures database.Valid()
      ensures database.tables == Registered(cfg, old(database.tables), now, id, username, email, hash).0
      ensures r.Created? ==>
                id in database.tables.users
                && database.tables.users[id] == User(username, cfg.lower(cfg.trim(username)), email, hash, Pending, now,
                                                     None, 0, None, None, None)
      ensures var name, other := NameClash(old(database.tables), Normalised(cfg, username)),
                                 OtherClash(old(database.tables), id, email);
              && (r.Created? <==> !name && !other)
              && (r.UsernameConflict? <==> name && (other ==> namedFirst))
    {
      var before := database.tables;
      var insert := InsertUser(id, NewUser(cfg, username, email, hash, now));
      ExecOne(before, insert);
      RefusedExactly(cfg, before, now, id, username, email, hash);
      var created := database.WithTransaction([insert], -1);
      if created {
        return Created;
      }
      if NameClash(before, Normalised(cfg, username)) && (!OtherClash(before, id, email) || namedFirst) {
        return UsernameConflict;
      }
      return OtherFailure;
    }
  }

  class ActivationService {
    const database: Database

    constructor (database: Database)
      ensures this.database == database
    {
      this.database := database;
    }

    method Activate(now: Time, value: string, fault: int) returns (r: ActivateEnd)
      requires database.Valid()
      modifies database
      ensures database.Valid()
      ensures (database.tables, r) == Activation(old(database.tables), now, value, fault)
    {
      var found := database.FindToken(value);
      if found.None? {
        return TokenNotFound;
      }
      var token := database.tables.tokens[found.value];
      if now > token.expiresAt {
        return TokenExpired;
      }
      if token.consumed {
        return TokenConsumed;
      }
      if token.userId !in database.tables.users || database.tables.users[token.userId].status != Pending {
        return AccountNotPending;
      }
      ActivationStatementsSpend(database.tables, found.value, now);
      var committed := database.WithTransaction(ActivationStatements(token.userId, found.value, now), fault);
      r := if committed then Activated(token.userId) else Aborted;
    }
  }
}
