/** What holds in every reachable state, fact by fact, and what no step ever undoes. */
module Invariants {
  import opened Prelude
  import opened Schema
  import opened Accounts
  import opened System

  /** Lower-case letters, digits and hyphens: text that trimming and lower-casing leave alone. */
  predicate Plain(s: string) {
    forall c | c in s :: 'a' <= c <= 'z' || '0' <= c <= '9' || c == '-'
  }

  ghost predicate TextOk(cfg: Config) {
    forall s | Plain(s) :: cfg.trim(s) == s && cfg.lower(s) == s
  }

  ghost predicate NamesHold(cfg: Config, users: map<Id, User>) {
    TextOk(cfg) ==> forall u | u in users :: users[u].normalised == Normalised(cfg, users[u].username)
  }

  ghost predicate UsersHold(users: map<Id, User>, past: History) {
    && past.registered.Keys == users.Keys
    && past.finished.Keys <= users.Keys
    && (forall u | u in users ::
          && (users[u].status == Deleted <==> u in past.finished)
          && (users[u].status == Deleted <==> users[u].deletedAt.Some?)
          && (users[u].status != Deleted ==> users[u].email == past.registered[u]))
  }

  ghost predicate SessionsHold(cfg: Config, sessions: map<Id, Session>, issued: map<Id, string>) {
    && issued.Keys == sessions.Keys
    && (forall i | i in sessions ::
          && cfg.sha(issued[i]) == sessions[i].tokenHash
          && (sessions[i].invalidated <==> sessions[i].invalidatedAt.Some?))
  }

  /** Row o is younger than every other passcode of its user. */
  ghost predicate Newest(otps: map<Id, Otp>, born: map<Id, nat>, o: Id)
    requires born.Keys == otps.Keys && o in otps
  {
    forall p | p in otps && p != o && otps[p].userId == otps[o].userId :: born[p] < born[o]
  }

  ghost predicate OtpsHold(otps: map<Id, Otp>, born: map<Id, nat>) {
    && born.Keys == otps.Keys
    && (forall o | o in otps :: born[o] < |born|)
    && (forall o | o in otps && otps[o].invalidatedAt.None? :: Newest(otps, born, o))
  }

  ghost predicate RequestsHold(requests: map<Id, DeletionRequest>, finished: map<Id, (Id, Id)>) {
    && (forall r | r in requests ::
          && (requests[r].status == Confirmed <==> requests[r].confirmedAt.Some?)
          && (requests[r].status == Cancelled <==> requests[r].cancelledAt.Some?)
          && (requests[r].status == Confirmed ==>
                requests[r].userId in finished && finished[requests[r].userId].0 == r)
          && (requests[r].status == Waiting ==> requests[r].userId !in finished))
    && (forall u | u in finished ::
          && finished[u].0 in requests
          && requests[finished[u].0].userId == u && requests[finished[u].0].status == Confirmed)
  }

  ghost predicate NoticesHold(notices: map<Id, Notice>, past: History) {
    && (forall n | n in notices ::
          && notices[n].userId in past.finished && past.finished[notices[n].userId].1 == n
          && notices[n].userId in past.registered && notices[n].recipient == past.registered[notices[n].userId])
    && (forall u | u in past.finished ::
          past.finished[u].1 in notices && notices[past.finished[u].1].userId == u)
  }

  ghost predicate CallHolds(t: Tables, c: Call) {
    match c
    case RegisterCall(_, _) => true
    case AskCall(u, _) => u in t.users
    case ArmCall(u, _, _) => u in t.users
    case IssueCall(u, _) => u in t.users
    case ClearedCall(u, _) => u in t.users
    case NumberedCall(_, row, _) => row.userId in t.users && row.invalidatedAt.None?
    case DispatchCall(o, _, _) => o in t.otps
    case LoginCall(a) => a.userId in t.users
    case ResetCall(a) =>
      a.requestId in t.recoveries && t.recoveries[a.requestId].userId == a.userId && a.userId in t.users
    case NoticeCall(q, read) => forall i | 0 <= i < |q| :: q[i] in t.notices && q[i] in read
  }

  ghost predicate CallsHold(s: State) {
    forall c | c in s.calls :: CallHolds(s.t, s.calls[c])
  }

  datatype Fact = NamesFact | UsersFact | SessionsFact | OtpsFact | RequestsFact | NoticesFact | CallsFact

  ghost predicate Holds(cfg: Config, s: State, f: Fact) {
    match f
    case NamesFact => NamesHold(cfg, s.t.users)
    case UsersFact => UsersHold(s.t.users, s.past)
    case SessionsFact => SessionsHold(cfg, s.t.sessions, s.past.issued)
    case OtpsFact => OtpsHold(s.t.otps, s.past.born)
    case RequestsFact => RequestsHold(s.t.requests, s.past.finished)
    case NoticesFact => NoticesHold(s.t.notices, s.past)
    case CallsFact => CallsHold(s)
  }

  ghost predicate Inv(cfg: Config, s: State) {
    && Consistent(s.t)
    && forall f :: Holds(cfg, s, f)
  }

  // ------------------------------------------------------------------------------- what no step ever undoes

  ghost predicate UsersEvolve(a: map<Id, User>, b: map<Id, User>) {
    forall u | u in a ::
      && u in b
      && a[u].status.Rank() <= b[u].status.Rank()
      && a[u].registeredAt == b[u].registeredAt
      && (a[u].deletedAt.Some? ==> b[u].deletedAt == a[u].deletedAt)
      && (a[u].status == Deleted ==>
            && b[u].email == a[u].email && b[u].username == a[u].username && b[u].normalised == a[u].normalised)
  }

  ghost predicate SessionsEvolve(a: map<Id, Session>, b: map<Id, Session>) {
    forall s | s in a ::
      && s in b
      && b[s].userId == a[s].userId && b[s].tokenHash == a[s].tokenHash
      && b[s].createdAt == a[s].createdAt && b[s].expiresAt == a[s].expiresAt
      && (a[s].invalidated ==> b[s] == a[s])
  }

  ghost predicate OtpsEvolve(a: map<Id, Otp>, b: map<Id, Otp>) {
    forall o | o in a ::
      && o in b
      && b[o].userId == a[o].userId && b[o].codeHash == a[o].codeHash && b[o].createdAt == a[o].createdAt
      && b[o].expiresAt == a[o].expiresAt && b[o].sequence == a[o].sequence
      && (a[o].invalidatedAt.Some? ==> b[o].invalidatedAt == a[o].invalidatedAt)
  }

  ghost predicate RequestsEvolve(a: map<Id, DeletionRequest>, b: map<Id, DeletionRequest>) {
    forall r | r in a ::
      && r in b
      && b[r].userId == a[r].userId && b[r].codeHash == a[r].codeHash
      && b[r].issuedAt == a[r].issuedAt && b[r].expiresAt == a[r].expiresAt
      && (a[r].status != Waiting ==> b[r] == a[r])
  }

  ghost predicate RecoveriesEvolve(a: map<Id, Recovery>, b: map<Id, Recovery>) {
    forall r | r in a ::
      && r in b
      && b[r].userId == a[r].userId && b[r].token == a[r].token
      && b[r].requestedAt == a[r].requestedAt && b[r].expiresAt == a[r].expiresAt
      && (a[r].consumed ==> b[r].consumed)
  }

  ghost predicate TokensEvolve(a: map<Id, ActivationToken>, b: map<Id, ActivationToken>) {
    forall k | k in a ::
      && k in b
      && b[k].userId == a[k].userId && b[k].value == a[k].value
      && b[k].issuedAt == a[k].issuedAt && b[k].expiresAt == a[k].expiresAt
      && (a[k].consumed ==> b[k] == a[k])
  }

  ghost predicate NoticesEvolve(a: map<Id, Notice>, b: map<Id, Notice>) {
    forall n | n in a ::
      n in b && b[n].userId == a[n].userId && b[n].recipient == a[n].recipient && b[n].dispatchAt == a[n].dispatchAt
      && b[n].extra == a[n].extra && a[n].retries <= b[n].retries
  }

  datatype Table = UserTable | SessionTable | OtpTable | RequestTable | RecoveryTable | TokenTable | NoticeTable

  ghost predicate TableEvolves(a: Tables, b: Tables, k: Table) {
    match k
    case UserTable => UsersEvolve(a.users, b.users)
    case SessionTable => SessionsEvolve(a.sessions, b.sessions)
    case OtpTable => OtpsEvolve(a.otps, b.otps)
    case RequestTable => RequestsEvolve(a.requests, b.requests)
    case RecoveryTable => RecoveriesEvolve(a.recoveries, b.recoveries)
    case TokenTable => TokensEvolve(a.tokens, b.tokens)
    case NoticeTable => NoticesEvolve(a.notices, b.notices)
  }

  /** Rows never disappear, and what was written once stays written. */
  ghost predicate Evolves(a: Tables, b: Tables) {
    forall k :: TableEvolves(a, b, k)
  }

  lemma EvolvesTransitive(a: Tables, b: Tables, c: Tables)
    requires Evolves(a, b) && Evolves(b, c)
    ensures Evolves(a, c)
  {
    forall k ensures TableEvolves(a, c, k) {
      assert TableEvolves(a, b, k) && TableEvolves(b, c, k);
    }
  }

  lemma EvolvesReflexive(a: Tables)
    ensures Evolves(a, a)
  {
    forall k ensures TableEvolves(a, a, k) {}
  }

  // --------------------------------------------------------------------- one table after one step, all at once

  ghost predicate UsersGood(cfg: Config, s: State, s': State) {
    && UsersDistinct(s'.t.users) && NamesHold(cfg, s'.t.users) && UsersHold(s'.t.users, s'.past)
    && UsersEvolve(s.t.users, s'.t.users)
  }

  ghost predicate SessionsGood(cfg: Config, s: State, s': State) {
    && SessionsOk(s'.t.users.Keys, s'.t.sessions) && SessionsHold(cfg, s'.t.sessions, s'.past.issued)
    && SessionsEvolve(s.t.sessions, s'.t.sessions)
  }

  ghost predicate OtpsGood(s: State, s': State) {
    && OtpsOk(s'.t.users.Keys, s'.t.otps) && OtpsHold(s'.t.otps, s'.past.born) && OtpsEvolve(s.t.otps, s'.t.otps)
  }

  ghost predicate RequestsGood(s: State, s': State) {
    && RequestsOk(s'.t.users.Keys, s'.t.requests) && RequestsHold(s'.t.requests, s'.past.finished)
    && RequestsEvolve(s.t.requests, s'.t.requests)
  }

  ghost predicate RecoveriesGood(s: State, s': State) {
    RecoveriesOk(s'.t.users.Keys, s'.t.recoveries) && RecoveriesEvolve(s.t.recoveries, s'.t.recoveries)
  }

  ghost predicate TokensGood(s: State, s': State) {
    TokensOk(s'.t.users.Keys, s'.t.tokens) && TokensEvolve(s.t.tokens, s'.t.tokens)
  }

  ghost predicate NoticesGood(s: State, s': State) {
    NoticesHold(s'.t.notices, s'.past) && NoticesEvolve(s.t.notices, s'.t.notices)
  }

  ghost predicate CallsGood(s: State, s': State) {
    forall c | c in s'.calls ::
      (c in s.calls && s'.calls[c] == s.calls[c]) || CallHolds(s'.t, s'.calls[c])
  }

  /** The step kept every fact and undid nothing. */
  ghost predicate Good(cfg: Config, s: State, s': State) {
    Inv(cfg, s') && Evolves(s.t, s'.t)
  }

  ghost predicate SameUsers(s: State, s': State) {
    s'.t.users == s.t.users && s'.past.registered == s.past.registered && s'.past.finished == s.past.finished
  }

  /** Every table is as before, or good after the step. */
  ghost predicate EachFine(cfg: Config, s: State, s': State) {
    && (SameUsers(s, s') || UsersGood(cfg, s, s'))
    && ((s'.t.sessions == s.t.sessions && s'.past.issued == s.past.issued) || SessionsGood(cfg, s, s'))
    && ((s'.t.otps == s.t.otps && s'.past.born == s.past.born) || OtpsGood(s, s'))
    && ((s'.t.requests == s.t.requests && s'.past.finished == s.past.finished) || RequestsGood(s, s'))
    && (s'.t.recoveries == s.t.recoveries || RecoveriesGood(s, s'))
    && (s'.t.tokens == s.t.tokens || TokensGood(s, s'))
    && ((s'.t.notices == s.t.notices && s'.past.registered == s.past.registered
         && s'.past.finished == s.past.finished) || NoticesGood(s, s'))
    && CallsGood(s, s')
  }

  /** It is enough to look at the tables a step touched. */
  lemma Assemble(cfg: Config, s: State, s': State)
    requires Inv(cfg, s) && EachFine(cfg, s, s')
    ensures Good(cfg, s, s')
  {
    forall k ensures TableEvolves(s.t, s'.t, k) {
      TableFollows(cfg, s, s', k);
    }
    forall p ensures PartOk(s'.t, p) {
      PartFollows(cfg, s, s', p);
    }
    forall f ensures Holds(cfg, s', f) {
      FactFollows(cfg, s, s', f);
    }
  }

  lemma TableFollows(cfg: Config, s: State, s': State, k: Table)
    requires EachFine(cfg, s, s')
    ensures TableEvolves(s.t, s'.t, k)
  {
  }

  lemma PartFollows(cfg: Config, s: State, s': State, p: Part)
    requires Inv(cfg, s) && EachFine(cfg, s, s')
    ensures PartOk(s'.t, p)
  {
    assert PartOk(s.t, p);
    assert s.t.users.Keys <= s'.t.users.Keys by {
      TableFollows(cfg, s, s', UserTable);
    }
  }

  lemma FactFollows(cfg: Config, s: State, s': State, f: Fact)
    requires Inv(cfg, s) && EachFine(cfg, s, s') && Evolves(s.t, s'.t)
    ensures Holds(cfg, s', f)
  {
    assert Holds(cfg, s, f);
    if f == CallsFact {
      CallsFollow(s, s');
    }
  }

  lemma CallsFollow(s: State, s': State)
    requires CallsHold(s) && CallsGood(s, s') && Evolves(s.t, s'.t)
    ensures CallsHold(s')
  {
    forall c | c in s'.calls ensures CallHolds(s'.t, s'.calls[c]) {
      assert TableEvolves(s.t, s'.t, UserTable) && TableEvolves(s.t, s'.t, OtpTable);
      assert TableEvolves(s.t, s'.t, RecoveryTable) && TableEvolves(s.t, s'.t, NoticeTable);
    }
  }
}
