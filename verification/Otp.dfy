/** One-time passcodes: issue (send and resend), delivery marks, verification. */
module Otps {
  import opened Prelude
  import opened Schema
  import opened Database

  datatype Gate = UnknownUser | Forbidden(status: Status) | MayIssue(email: string)
  datatype VerifyEnd = OtpNotFound | OtpExpired | OtpInvalid | Aborted | Accepted(otpId: Id)

  /** Accounts that may ask for, or submit, a passcode. */
  predicate Eligible(t: Tables, u: Id) {
    u in t.users && (t.users[u].status == Pending || t.users[u].status == Active)
  }

  /** The check before the rate limiter is asked; the email is a snapshot from here on. */
  function Gated(t: Tables, u: Id): Gate {
    if u !in t.users then UnknownUser
    else if !Eligible(t, u) then Forbidden(t.users[u].status)
    else MayIssue(t.users[u].email)
  }

  function FreshRow(cfg: Config, u: Id, email: string, code: string, now: Time, sequence: nat): Otp {
    Otp(u, email, cfg.hmac(code), OtpPending, now, now + cfg.otpTtlMs, None, sequence)
  }

  function Cleared(t: Tables, u: Id, now: Time): Tables {
    t.(otps := OtpsCut(t.otps, u, now))
  }

  ghost function NextRow(cfg: Config, t: Tables, now: Time, u: Id, email: string, code: string): Otp {
    FreshRow(cfg, u, email, code, now, LastSequence(t, u) + 1)
  }

  /** Clear the user's active passcodes and store `row`; the id is None if the insert is refused. */
  function Replaced(t: Tables, now: Time, id: Id, row: Otp): (Tables, Option<Id>) {
    var cut := Cleared(t, row.userId, now);
    if id in t.otps || row.userId !in t.users then (cut, None) else (cut.(otps := cut.otps[id := row]), Some(id))
  }

  /** Invalidate, number, store: the segment after the rate limiter agreed. */
  ghost function Issued(cfg: Config, t: Tables, now: Time, u: Id, email: string, code: string, id: Id)
    : (Tables, Option<Id>)
  {
    Replaced(t, now, id, NextRow(cfg, Cleared(t, u, now), now, u, email, code))
  }

  /** Once the user's active rows are cleared, only a taken id or a missing user refuses the new row. */
  lemma ReplacedRuns(t: Tables, now: Time, id: Id, row: Otp)
    requires row.invalidatedAt.None?
    ensures var cut := Cleared(t, row.userId, now);
            Exec(cut, InsertOtp(id, row))
            == if Replaced(t, now, id, row).1.Some? then Some(Replaced(t, now, id, row).0) else None
    ensures Replaced(t, now, id, row).1.None? ==> Replaced(t, now, id, row).0 == Cleared(t, row.userId, now)
    ensures Replaced(t, now, id, row).1.Some? ==> Replaced(t, now, id, row).1 == Some(id)
  {
  }

  function Marked(t: Tables, id: Id, delivered: bool): Tables {
    if id !in t.otps then t
    else t.(otps := t.otps[id := t.otps[id].(status := if delivered then OtpDelivered else OtpFailed)])
  }

  /** The tables once row `o` of user `u` has been accepted. */
  function OtpAccepted(t: Tables, u: Id, o: Id, now: Time): Tables
    requires u in t.users && o in t.otps
  {
    t.(users := t.users[u := Changed(t.users[u], Activate(now))],
       otps := t.otps[o := t.otps[o].(invalidatedAt := Some(now))])
  }

  lemma InvalidateRuns(t: Tables, o: Id, at: Time)
    requires o in t.otps
    ensures Exec(t, InvalidateOtp(o, at)) == Some(t.(otps := t.otps[o := t.otps[o].(invalidatedAt := Some(at))]))
  {
  }

  /** The two statements of an acceptance. */
  lemma AcceptanceRuns(t: Tables, u: Id, o: Id, at: Time)
    requires u in t.users && o in t.otps
    ensures ExecAll(t, [UpdateUser(u, Activate(at)), InvalidateOtp(o, at)]) == Some(OtpAccepted(t, u, o, at))
  {
    ExecTwo(t, UpdateUser(u, Activate(at)), InvalidateOtp(o, at));
    UpdateRuns(t, u, Activate(at));
    InvalidateRuns(t.(users := t.users[u := Changed(t.users[u], Activate(at))]), o, at);
  }

  ghost function Verified(cfg: Config, t: Tables, now: Time, u: Id, code: string, fault: int): (Tables, VerifyEnd) {
    if !Eligible(t, u) then (t, OtpNotFound)
    else match OtpOf(t, u)
      case None => (t, OtpNotFound)
      case Some(o) =>
        if now > t.otps[o].expiresAt then (t, OtpExpired)
        else if cfg.hmac(code) != t.otps[o].codeHash then (t, OtpInvalid)
        else if 0 <= fault < 2 then (t, Aborted)
        else (OtpAccepted(t, u, o, now), Accepted(o))
  }

  class OtpService {
    const cfg: Config
    const database: Database

    constructor (cfg: Config, database: Database)
      ensures this.cfg == cfg && this.database == database
    {
      this.cfg, this.database := cfg, database;
    }

    method IssueUpToRateLimit(u: Id) returns (r: Gate)
      ensures r == Gated(database.tables, u)
    {
      if u !in database.tables.users {
        return UnknownUser;
      }
      var row := database.tables.users[u];
      if row.status != Active && row.status != Pending {
        return Forbidden(row.status);
      }
      return MayIssue(row.email);
    }

    method IssueAfterRateLimit(now: Time, u: Id, email: string, code: string, id: Id) returns (r: Option<Id>)
      requires database.Valid()
      modifies database
      ensures database.Valid()
      ensures (database.tables, r) == Issued(cfg, old(database.tables), now, u, email, code, id)
      ensures r.Some? ==> r == Some(id) && id in database.tables.otps
      ensures r.Some? ==> var row := database.tables.otps[id];
                          && row.userId == u && row.email == email && row.codeHash == cfg.hmac(code)
                          && row.createdAt == now && row.expiresAt == now + cfg.otpTtlMs
                          && row.invalidatedAt == None && row.status == OtpPending
    {
      database.ClearOtps(u, now);
      var sequence := database.NextSequence(u);
      ReplacedRuns(old(database.tables), now, id, FreshRow(cfg, u, email, code, now, sequence));
      var stored := database.Run(InsertOtp(id, FreshRow(cfg, u, email, code, now, sequence)));
      r := if stored then Some(id) else None;
    }

    method FinishDispatch(id: Id, delivered: bool)
      requires database.Valid()
      modifies database
      ensures database.Valid()
      ensures database.tables == Marked(old(database.tables), id, delivered)
    {
      if delivered {
        var _ := database.Run(MarkOtp(id, OtpDelivered));
      } else {
        var _ := database.Run(MarkOtp(id, OtpFailed));
      }
    }

    method VerifyOtp(now: Time, u: Id, code: string, fault: int) returns (r: VerifyEnd)
      requires database.Valid()
      modifies database
      ensures database.Valid()
      ensures (database.tables, r) == Verified(cfg, old(database.tables), now, u, code, fault)
    {
      if u !in database.tables.users
         || (database.tables.users[u].status != Pending && database.tables.users[u].status != Active) {
        return OtpNotFound;
      }
      var found := database.FindActiveOtp(u);
      if found.None? {
        return OtpNotFound;
      }
      var row := database.tables.otps[found.value];
      if now > row.expiresAt {
        return OtpExpired;
      }
      if cfg.hmac(code) != row.codeHash {
        return OtpInvalid;
      }
      AcceptanceRuns(database.tables, u, found.value, now);
      var committed := database.WithTransaction([UpdateUser(u, Activate(now)), InvalidateOtp(found.value, now)], fault);
      r := if committed then Accepted(found.value) else Aborted;
    }
  }
}
