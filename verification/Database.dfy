/** The one mutable object: the database, its transactions, and the repositories' queries. */
module Database {
  import opened Prelude
  import opened Schema

  lemma {:induction false} RefusalSticks(t: Tables, ss: seq<Statement>, i: nat)
    requires i <= |ss| && ExecAll(t, ss[..i]).None?
    ensures ExecAll(t, ss).None?
    decreases |ss| - i
  {
    if i == |ss| {
      assert ss[..i] == ss;
    } else {
      assert ss[..i + 1][..|ss[..i + 1]| - 1] == ss[..i];
      RefusalSticks(t, ss, i + 1);
    }
  }

  class Database {
    var tables: Tables

    ghost predicate Valid()
      reads this
    {
      Consistent(tables)
    }

    constructor ()
      ensures Valid() && tables == EMPTY
    {
      tables := EMPTY;
      new;
      forall p ensures PartOk(EMPTY, p) {}
    }

    /** One write outside a transaction; a refused write changes nothing. */
    method Write(s: Statement) returns (ok: bool)
      modifies this
      ensures ok <==> Exec(old(tables), s).Some?
      ensures tables == if ok then Exec(old(tables), s).value else old(tables)
    {
      var after := Exec(tables, s);
      ok := after.Some?;
      if ok {
        tables := after.value;
      }
    }

    /** The same, keeping the tables consistent. */
    method Run(s: Statement) returns (ok: bool)
      requires Valid() && Admissible(tables, s)
      modifies this
      ensures Valid()
      ensures ok <==> Exec(old(tables), s).Some?
      ensures tables == if ok then Exec(old(tables), s).value else old(tables)
    {
      if Exec(tables, s).Some? {
        ExecKeepsConsistent(tables, s);
      }
      ok := Write(s);
    }

    /** One plain UPDATE of a users row. */
    method SetUser(u: Id, change: UserChange)
      requires Valid() && u in tables.users && !change.Anonymise?
      modifies this
      ensures Valid()
      ensures tables == old(tables).(users := old(tables).users[u := Changed(old(tables).users[u], change)])
    {
      UpdateRuns(tables, u, change);
      var _ := Run(UpdateUser(u, change));
    }

    /** The UPDATE that invalidates the user's active passcodes. */
    method ClearOtps(u: Id, at: Time)
      requires Valid()
      modifies this
      ensures Valid()
      ensures tables == old(tables).(otps := OtpsCut(old(tables).otps, u, at))
    {
      var _ := Run(InvalidateOtpsOf(u, at));
    }

    method SetNoticeStatus(id: Id, delivery: Delivery)
      modifies this
      ensures id !in old(tables).notices ==> tables == old(tables)
      ensures id in old(tables).notices ==>
                var row := old(tables).notices[id];
                tables == old(tables).(notices := old(tables).notices[id := row.(delivery := delivery)])
    {
      var _ := Write(SetNotice(id, delivery));
    }

    method CountNoticeRetry(id: Id)
      modifies this
      ensures id !in old(tables).notices ==> tables == old(tables)
      ensures id in old(tables).notices ==>
                var row := old(tables).notices[id];
                tables == old(tables).(notices := old(tables).notices[id := row.(retries := row.retries + 1)])
    {
      var _ := Write(RetryNotice(id));
    }

    method SetEmailStatus(id: Id, delivery: Delivery)
      modifies this
      ensures id !in old(tables).emails ==> tables == old(tables)
      ensures id in old(tables).emails ==>
                var row := old(tables).emails[id];
                tables == old(tables).(emails := old(tables).emails[id := row.(delivery := delivery)])
    {
      var _ := Write(SetEmail(id, delivery));
    }

    method CountEmailRetry(id: Id)
      modifies this
      ensures id !in old(tables).emails ==> tables == old(tables)
      ensures id in old(tables).emails ==>
                var row := old(tables).emails[id];
                tables == old(tables).(emails := old(tables).emails[id := row.(retries := row.retries + 1)])
    {
      var _ := Write(RetryEmail(id));
    }

    /**
     * The statements of one callback, run in order. If any is refused, or the environment makes the one at index
     * `fault` fail, everything already written is undone.
     */
    method WithTransaction(ss: seq<Statement>, fault: int) returns (committed: bool)
      requires Valid() && forall i | 0 <= i < |ss| :: !ss[i].InsertRequest?
      modifies this
      ensures Valid()
      ensures committed <==> ExecAll(old(tables), ss).Some? && !(0 <= fault < |ss|)
      ensures tables == if committed then ExecAll(old(tables), ss).value else old(tables)
    {
      var saved := tables;
      var i := 0;
      while i < |ss|
        invariant 0 <= i <= |ss| && Valid()
        invariant ExecAll(saved, ss[..i]) == Some(tables)
        invariant !(0 <= fault < i)
      {
        assert ss[..i + 1][..|ss[..i + 1]| - 1] == ss[..i];
        var ok := false;
        if i != fault {
          ok := Run(ss[i]);
        }
        if !ok {
          if i != fault {
            RefusalSticks(saved, ss, i + 1);
          }
          tables := saved;
          return false;
        }
        i := i + 1;
      }
      assert ss[..i] == ss;
      return true;
    }

    method FindUserByEmail(email: string) returns (r: Option<Id>)
      requires Valid()
      ensures r == UserByEmail(tables, email)
    {
      assert PartOk(tables, UsersPart);
      if u: Id :| u in tables.users && tables.users[u].email == email {
        r := Some(u);
      } else {
        r := None;
      }
    }

    method FindSession(hash: string) returns (r: Option<Id>)
      requires Valid()
      ensures r == SessionByHash(tables, hash)
    {
      assert PartOk(tables, SessionsPart);
      if s: Id :| s in tables.sessions && tables.sessions[s].tokenHash == hash {
        r := Some(s);
      } else {
        r := None;
      }
    }

    method FindActiveOtp(userId: Id) returns (r: Option<Id>)
      requires Valid()
      ensures r == OtpOf(tables, userId)
    {
      assert PartOk(tables, OtpsPart);
      if o: Id :| o in tables.otps && tables.otps[o].userId == userId && tables.otps[o].invalidatedAt.None? {
        assert ActiveOtp(tables, userId, o);
        r := Some(o);
      } else {
        r := None;
      }
    }

    method FindWaitingRequest(userId: Id) returns (r: Option<Id>)
      requires Valid()
      ensures r == RequestOf(tables, userId)
    {
      assert PartOk(tables, RequestsPart);
      if q: Id :| q in tables.requests && tables.requests[q].userId == userId && tables.requests[q].status == Waiting {
        assert WaitingRequest(tables, userId, q);
        r := Some(q);
      } else {
        r := None;
      }
    }

    method FindRecovery(token: string) returns (r: Option<Id>)
      requires Valid()
      ensures r == RecoveryByToken(tables, token)
    {
      assert PartOk(tables, RecoveriesPart);
      if q: Id :| q in tables.recoveries && tables.recoveries[q].token == token {
        r := Some(q);
      } else {
        r := None;
      }
    }

    method FindToken(value: string) returns (r: Option<Id>)
      requires Valid()
      ensures r == TokenByValue(tables, value)
    {
      assert PartOk(tables, TokensPart);
      if k: Id :| k in tables.tokens && tables.tokens[k].value == value {
        r := Some(k);
      } else {
        r := None;
      }
    }

    /** COALESCE(MAX(attempt_sequence), 0) + 1 over the user's rows. */
    method NextSequence(userId: Id) returns (n: nat)
      ensures n == LastSequence(tables, userId) + 1
    {
      var left := tables.otps.Keys;
      var top := 0;
      while left != {}
        invariant left <= tables.otps.Keys
        invariant forall o | o in tables.otps && o !in left && tables.otps[o].userId == userId ::
                    tables.otps[o].sequence <= top
        invariant top == 0 || exists o :: o in tables.otps && tables.otps[o].userId == userId
                                          && tables.otps[o].sequence == top
        decreases left
      {
        var o :| o in left;
        left := left - {o};
        if tables.otps[o].userId == userId && tables.otps[o].sequence > top {
          top := tables.otps[o].sequence;
        }
      }
      n := top + 1;
    }
  }
}
