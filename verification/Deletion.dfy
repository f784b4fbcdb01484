/** Self-service account deletion: request, confirm (one four-table transaction), cancel. */
module Deletion {
  import opened Prelude
  import opened Schema
  import opened Database

  datatype RequestEnd = AccountNotActive | AlreadyPending | StoreFailed | Requested(requestId: Id, expiresAt: Time)
  datatype ConfirmEnd = NoRequest | CodeExpired | CodeInvalid | Aborted | Finished(requestId: Id)

  function AnonymousEmail(u: Id): string {
    "deleted-" + u + "@deleted.invalid"
  }

  function AnonymousName(u: Id): string {
    "deleted-user-" + u
  }

  ghost function DeletionRequested(cfg: Config, t: Tables, now: Time, u: Id, code: string, id: Id)
    : (Tables, RequestEnd)
  {
    if u !in t.users || t.users[u].status != Active then (t, AccountNotActive)
    else if RequestOf(t, u).Some? then (t, AlreadyPending)
    else if id in t.requests then (t, StoreFailed)
    else
      var row := DeletionRequest(u, cfg.hmac(code), now, now + cfg.deletionTtlMs, Waiting, None, None);
      (t.(requests := t.requests[id := row]), Requested(id, now + cfg.deletionTtlMs))
  }

  /** The anonymised row of a deleted user. */
  function Erased(cfg: Config, u: Id, row: User, now: Time): User {
    row.(status := Deleted, email := AnonymousEmail(u), username := AnonymousName(u),
         normalised := cfg.lower(AnonymousName(u)), deletedAt := Some(now))
  }

  /** The four tables once the deletion of `u` under request `r` has committed. */
  function Finalised(cfg: Config, t: Tables, u: Id, r: Id, noticeId: Id, now: Time): Tables
    requires u in t.users && r in t.requests
  {
    t.(users := t.users[u := Erased(cfg, u, t.users[u], now)],
       requests := t.requests[r := t.requests[r].(status := Confirmed, confirmedAt := Some(now))],
       sessions := SessionsCut(t.sessions, u, now),
       notices := t.notices[noticeId := Record(u, t.users[u].email, now, Queued, 0, now)])
  }

  /** Neither the anonymised names nor the notice id collide with another row. */
  predicate CanFinalise(cfg: Config, t: Tables, u: Id, noticeId: Id) {
    NamesFree(t.users, u, cfg.lower(AnonymousName(u)), AnonymousEmail(u)) && noticeId !in t.notices
  }

  ghost function ConfirmedDeletion(cfg: Config, t: Tables, now: Time, u: Id, code: string, noticeId: Id, fault: int)
    : (Tables, ConfirmEnd)
  {
    match RequestOf(t, u)
    case None => (t, NoRequest)
    case Some(r) =>
      if now > t.requests[r].expiresAt then (t, CodeExpired)
      else if cfg.hmac(code) != t.requests[r].codeHash then (t, CodeInvalid)
      else if u !in t.users then (t, NoRequest)
      else if 0 <= fault < 4 || !CanFinalise(cfg, t, u, noticeId) then (t, Aborted)
      else (Finalised(cfg, t, u, r, noticeId, now), Finished(r))
  }

  /** The tables after a cancellation, and whether there was a request to cancel. */
  ghost function CancelledDeletion(t: Tables, now: Time, u: Id): (Tables, bool) {
    match RequestOf(t, u)
    case None => (t, false)
    case Some(r) =>
      (t.(requests := t.requests[r := t.requests[r].(status := Cancelled, cancelledAt := Some(now))]), true)
  }

  function ConfirmStatements(cfg: Config, u: Id, email: string, r: Id, noticeId: Id, now: Time): seq<Statement> {
    [UpdateUser(u, Anonymise(AnonymousEmail(u), AnonymousName(u), cfg.lower(AnonymousName(u)), now)),
     ConfirmRequest(r, now),
     InvalidateSessionsOf(u, now),
     InsertNotice(noticeId, Record(u, email, now, Queued, 0, now))]
  }

  /** The transaction's four statements, one by one. */
  lemma EraseStep(cfg: Config, t: Tables, u: Id, now: Time)
    requires u in t.users
    ensures Exec(t, UpdateUser(u, Anonymise(AnonymousEmail(u), AnonymousName(u), cfg.lower(AnonymousName(u)), now)))
         == if NamesFree(t.users, u, cfg.lower(AnonymousName(u)), AnonymousEmail(u))
            then Some(t.(users := t.users[u := Erased(cfg, u, t.users[u], now)])) else None
  {
  }

  /** The four statements succeed exactly when nothing collides, and then yield the finalised tables. */
  lemma ConfirmStatementsFinalise(cfg: Config, t: Tables, u: Id, r: Id, noticeId: Id, now: Time)
    requires u in t.users && r in t.requests
    ensures ExecAll(t, ConfirmStatements(cfg, u, t.users[u].email, r, noticeId, now))
         == if CanFinalise(cfg, t, u, noticeId) then Some(Finalised(cfg, t, u, r, noticeId, now)) else None
  {
    var notice := Record(u, t.users[u].email, now, Queued, 0, now);
    var a := UpdateUser(u, Anonymise(AnonymousEmail(u), AnonymousName(u), cfg.lower(AnonymousName(u)), now));
    var b, c, d := ConfirmRequest(r, now), InvalidateSessionsOf(u, now), InsertNotice(noticeId, notice);
    ExecFour(t, a, b, c, d);
    EraseStep(cfg, t, u, now);
    if NamesFree(t.users, u, cfg.lower(AnonymousName(u)), AnonymousEmail(u)) {
      var t1 := t.(users := t.users[u := Erased(cfg, u, t.users[u], now)]);
      RestOfConfirm(t1, u, r, noticeId, notice, now);
    }
  }

  lemma RestOfConfirm(t: Tables, u: Id, r: Id, noticeId: Id, notice: Notice, now: Time)
    requires r in t.requests
    ensures Then(Then(Exec(t, ConfirmRequest(r, now)), InvalidateSessionsOf(u, now)), InsertNotice(noticeId, notice))
         == if noticeId in t.notices then None
            else Some(t.(requests := t.requests[r := t.requests[r].(status := Confirmed, confirmedAt := Some(now))],
                         sessions := SessionsCut(t.sessions, u, now),
                         notices := t.notices[noticeId := notice]))
  {
    ConfirmRuns(t, r, now);
    var mid := Exec(t, ConfirmRequest(r, now)).value;
    CutRuns(mid, u, now);
    NoticeRuns(Exec(mid, InvalidateSessionsOf(u, now)).value, noticeId, notice);
  }

  class AccountDeletionService {
    const cfg: Config
    const database: Database

    constructor (cfg: Config, database: Database)
      ensures this.cfg == cfg && this.database == database
    {
      this.cfg, this.database := cfg, database;
    }

    method RequestDeletion(now: Time, u: Id, code: string, id: Id) returns (r: RequestEnd)
      requires database.Valid()
      modifies database
      ensures database.Valid()
      ensures (database.tables, r) == DeletionRequested(cfg, old(database.tables), now, u, code, id)
    {
      if u !in database.tables.users || database.tables.users[u].status != Active {
        return AccountNotActive;
      }
      var existing := database.FindWaitingRequest(u);
      if existing.Some? {
        return AlreadyPending;
      }
      var expiresAt := now + cfg.deletionTtlMs;
      var stored := database.Run(
        InsertRequest(id, DeletionRequest(u, cfg.hmac(code), now, expiresAt, Waiting, None, None)));
      r := if stored then Requested(id, expiresAt) else StoreFailed;
    }

    method ConfirmDeletion(now: Time, u: Id, code: string, noticeId: Id, fault: int) returns (r: ConfirmEnd)
      requires database.Valid()
      modifies database
      ensures database.Valid()
      ensures (database.tables, r) == ConfirmedDeletion(cfg, old(database.tables), now, u, code, noticeId, fault)
      ensures r.Finished? ==>
                && WaitingRequest(old(database.tables), u, r.requestId)
                && now <= old(database.tables).requests[r.requestId].expiresAt
                && cfg.hmac(code) == old(database.tables).requests[r.requestId].codeHash
    {
      var found := database.FindWaitingRequest(u);
      if found.None? {
        return NoRequest;
      }
      var request := database.tables.requests[found.value];
      if now > request.expiresAt {
        return CodeExpired;
      }
      if cfg.hmac(code) != request.codeHash {
        return CodeInvalid;
      }
      if u !in database.tables.users {
        return NoRequest;
      }
      var preservedEmail := database.tables.users[u].email;
      ConfirmStatementsFinalise(cfg, database.tables, u, found.value, noticeId, now);
      var committed :=
        database.WithTransaction(ConfirmStatements(cfg, u, preservedEmail, found.value, noticeId, now), fault);
      r := if committed then Finished(found.value) else Aborted;
    }

    method CancelDeletion(now: Time, u: Id) returns (cancelled: bool)
      requires database.Valid()
      modifies database
      ensures database.Valid()
      ensures (database.tables, cancelled) == CancelledDeletion(old(database.tables), now, u)
    {
      var found := database.FindWaitingRequest(u);
      if found.None? {
        return false;
      }
      var _ := database.Run(CancelRequest(found.value, now));
      return true;
    }
  }
}
