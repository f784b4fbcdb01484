/** Passcodes stored for one account, against what the rate limiter grants it. */
module Issuance {
  import opened Prelude
  import opened Schema
  import opened Otps
  import RateLimit
  import RateBounds
  import opened System
  import opened Invariants
  import opened Steps
  import opened Frames
  import opened Lifecycle
  import opened Limits
  import opened Passcodes

  /** Call c is an issue for u that the limiter has granted and that has not stored its row yet. */
  predicate Due(s: State, c: nat, u: Id) {
    c in s.calls
    && match s.calls[c]
       case ArmCall(v, _, allowed) => v == u && allowed
       case IssueCall(v, _) => v == u
       case ClearedCall(v, _) => v == u
       case NumberedCall(_, row, _) => row.userId == u
       case _ => false
  }

  function DueCalls(s: State, u: Id): set<nat> {
    set c | c in s.calls && Due(s, c, u)
  }

  /** Rows stored and rows still to be stored. */
  ghost function IssuedOrDue(s: State, u: Id): nat {
    |OtpsOf(s.t, u)| + |DueCalls(s, u)|
  }

  /** How many issues for u the limiter has granted so far in the half-open interval of length `span` from `from`. */
  function Grants(s: State, u: Id, from: Time, span: int): nat {
    RateBounds.GrantedIn(LimitOf(s, u), from, span)
  }

  lemma OneMoreAtMost<A>(a: set<A>, b: set<A>, x: A)
    requires b <= a + {x}
    ensures |b| <= |a| + 1
  {
    SubsetIsNoLarger(b, a + {x});
  }

  lemma OneFewerAtLeast<A>(a: set<A>, b: set<A>, x: A)
    requires b <= a && x in a && x !in b
    ensures |b| <= |a| - 1
  {
    SubsetIsNoLarger(b, a - {x});
  }

  // --------------------------------------------------------------------------------------- rows

  lemma StoreAddsOneRow(cfg: Config, s: State, call: nat, code: string, id: Id, u: Id)
    requires call in s.calls && s.calls[call].IssueCall?
    ensures |OtpsOf(StoreIssue(cfg, s, call, code, id).t, u)| <= |OtpsOf(s.t, u)| + 1
  {
    var c := s.calls[call];
    var cut := Cleared(s.t, c.userId, s.clock);
    StoredAtOnce(cfg, s, call, code, id);
    if id !in s.t.otps {
      RowAdded(s.t.otps, cut.otps, id, NextRow(cfg, cut, s.clock, c.userId, c.email, code), u);
    }
    OneMoreAtMost(OtpsOf(s.t, u), OtpsOf(StoreIssue(cfg, s, call, code, id).t, u), id);
  }

  lemma InsertAddsOneRow(cfg: Config, s: State, call: nat, u: Id)
    requires Inv(cfg, s) && IsNumbered(s, call)
    ensures |OtpsOf(InsertIssue(s, call).t, u)| <= |OtpsOf(s.t, u)| + 1
  {
    var c := s.calls[call];
    assert Holds(cfg, s, CallsFact);
    assert CallHolds(s.t, c);
    if InsertOk(s, c) {
      InsertStores(s, call);
      RowAdded(s.t.otps, s.t.otps, c.id, c.row, u);
    } else {
      InsertRefused(s, call);
    }
    OneMoreAtMost(OtpsOf(s.t, u), OtpsOf(InsertIssue(s, call).t, u), c.id);
  }

  // ----------------------------------------------------------------------------------- calls in flight

  /** The limiter grants this step's issue, which is for u. */
  predicate GrantsNow(cfg: Config, s: State, a: Action, u: Id) {
    && a.IssueAsk? && a.call in s.calls && s.calls[a.call].AskCall? && s.calls[a.call].userId == u
    && LastAllowed(Asked(cfg, s, u))
  }

  lemma AskGrants(cfg: Config, s: State, call: nat, u: Id)
    requires call in s.calls && s.calls[call].AskCall? && Due(AskIssue(cfg, s, call), call, u)
    ensures GrantsNow(cfg, s, IssueAsk(call), u)
  {
  }

  lemma BecomesDue(cfg: Config, s: State, a: Action, s': State, c: nat, u: Id)
    requires s' == Step(cfg, s, a) && EntersOrStays(cfg, s, a, s') && Due(s', c, u) && !Due(s, c, u)
    ensures GrantsNow(cfg, s, a, u) && c == a.call
  {
    assert Enters(cfg, s, a, c, s'.calls[c]);
    if a.IssueAsk? {
      AskGrants(cfg, s, c, u);
    }
  }

  /** Only a grant makes one more row due. */
  lemma DueAfter(cfg: Config, s: State, a: Action, u: Id)
    ensures DueCalls(Step(cfg, s, a), u)
         <= DueCalls(s, u) + (if GrantsNow(cfg, s, a, u) then {a.call} else {})
  {
    var s' := Step(cfg, s, a);
    CallsEnter(cfg, s, a);
    forall c | c in DueCalls(s', u) && c !in DueCalls(s, u) ensures GrantsNow(cfg, s, a, u) && c == a.call {
      BecomesDue(cfg, s, a, s', c, u);
    }
  }

  lemma StoreEndsCall(cfg: Config, s: State, a: Action, u: Id)
    requires StoresAtOnce(s, a, u) || StoresNumbered(s, a, u)
    ensures |DueCalls(Step(cfg, s, a), u)| <= |DueCalls(s, u)| - 1
  {
    DueAfter(cfg, s, a, u);
    CallsEnter(cfg, s, a);
    OneFewerAtLeast(DueCalls(s, u), DueCalls(Step(cfg, s, a), u), a.call);
  }

  /** A step adds a row or a due call for u only if it is a grant, and then one. */
  lemma StepNeedsGrant(cfg: Config, s: State, a: Action, u: Id)
    requires Inv(cfg, s)
    ensures IssuedOrDue(Step(cfg, s, a), u) <= IssuedOrDue(s, u) + (if GrantsNow(cfg, s, a, u) then 1 else 0)
  {
    var s' := Step(cfg, s, a);
    RowsGrowExactly(cfg, s, a, u);
    DueAfter(cfg, s, a, u);
    if GrantsNow(cfg, s, a, u) {
      OneMoreAtMost(DueCalls(s, u), DueCalls(s', u), a.call);
    } else {
      SubsetIsNoLarger(DueCalls(s', u), DueCalls(s, u));
      if StoresAtOnce(s, a, u) {
        StoreAddsOneRow(cfg, s, a.call, a.code, a.id, u);
        StoreEndsCall(cfg, s, a, u);
      } else if StoresNumbered(s, a, u) {
        InsertAddsOneRow(cfg, s, a.call, u);
        StoreEndsCall(cfg, s, a, u);
      }
    }
  }

  // --------------------------------------------------------------------------------------- grants

  lemma AttemptCounted(max: nat, window: int, l: RateLimit.Trace, now: Time, from: Time, span: int)
    ensures var l' := RateLimit.Apply(max, window, l, RateLimit.Command.Attempt(now));
            && RateBounds.GrantedIn(l', from, span) >= RateBounds.GrantedIn(l, from, span)
            && (|l'.answers| > |l.answers| && LastAllowed(l') && from <= now < from + span ==>
                  RateBounds.GrantedIn(l', from, span) == RateBounds.GrantedIn(l, from, span) + 1)
  {
    var l' := RateLimit.Apply(max, window, l, RateLimit.Command.Attempt(now));
    if |l'.answers| > |l.answers| {
      var a := l'.answers[|l.answers|];
      assert l'.answers == l.answers + [a];
      if a.allowed {
        RateBounds.GrantCounted(l.answers, a, from, span);
      } else {
        RateLimit.AnswerAppended(l.answers, a, 0);
        assert RateLimit.Granted(l'.answers) == RateLimit.Granted(l.answers);
      }
    }
  }

  lemma AttemptAnswered(cfg: Config, s: State, u: Id)
    requires LimitSound(cfg, s, u)
    ensures |Asked(cfg, s, u).answers| > |LimitOf(s, u).answers|
  {
    RateBounds.NewestAnswer(cfg.quota, cfg.windowMs, LimitOf(s, u), s.clock, s.clock);
  }

  lemma AskIsCounted(cfg: Config, s: State, call: nat, u: Id, from: Time, span: int)
    requires LimitSound(cfg, s, u) && from <= s.clock < from + span && call in s.calls && s.calls[call].AskCall?
    ensures Grants(AskIssue(cfg, s, call), u, from, span)
         >= Grants(s, u, from, span) + (if GrantsNow(cfg, s, IssueAsk(call), u) then 1 else 0)
  {
    if s.calls[call].userId == u {
      AttemptAnswered(cfg, s, u);
      AttemptCounted(cfg.quota, cfg.windowMs, LimitOf(s, u), s.clock, from, span);
    }
  }

  /** The grants of u in an interval that holds the current time count this step's grant. */
  lemma GrantIsCounted(cfg: Config, s: State, a: Action, u: Id, from: Time, span: int)
    requires LimitSound(cfg, s, u) && from <= s.clock < from + span
    ensures Grants(Step(cfg, s, a), u, from, span)
         >= Grants(s, u, from, span) + (if GrantsNow(cfg, s, a, u) then 1 else 0)
  {
    if a.IssueAsk? {
      if a.call in s.calls && s.calls[a.call].AskCall? {
        AskIsCounted(cfg, s, a.call, u, from, span);
      }
    } else if !a.IssueArm? {
      OthersKeepLimits(cfg, s, a);
    }
  }

  // ------------------------------------------------------------------------------------- whole runs

  /** However issues interleave, and pause where they may, rows stored and due grow by no more than the grants. */
  lemma {:induction false} RowsNeedGrants(cfg: Config, start: Time, run: seq<Action>, more: seq<Action>, u: Id,
                                          from: Time, span: int)
    requires from <= At(cfg, start, run).clock && At(cfg, start, run + more).clock < from + span
    ensures var s, s' := At(cfg, start, run), At(cfg, start, run + more);
            IssuedOrDue(s', u) + Grants(s, u, from, span) <= IssuedOrDue(s, u) + Grants(s', u, from, span)
    decreases |more|
  {
    if more == [] {
      assert run + more == run;
    } else {
      var n := |more| - 1;
      assert (run + more)[..|run + more| - 1] == run + more[..n];
      var mid := At(cfg, start, run + more[..n]);
      Later(cfg, start, run, more[..n]);
      ClockForward(cfg, mid, more[n]);
      LimitsInRuns(cfg, start, run + more[..n], u);
      StepNeedsGrant(cfg, mid, more[n], u);
      GrantIsCounted(cfg, mid, more[n], u, from, span);
      RowsNeedGrants(cfg, start, run, more[..n], u, from, span);
    }
  }

  /**
   * Limiter and service together: in any stretch of any run that is shorter than k window lengths, an account gains
   * at most (k + 1) * quota - 1 passcodes and those that had been granted before and still had to be stored.
   */
  lemma PasscodesPerInterval(cfg: Config, start: Time, run: seq<Action>, more: seq<Action>, u: Id, k: nat)
    requires At(cfg, start, run + more).clock < At(cfg, start, run).clock + k * cfg.windowMs
    ensures var s := At(cfg, start, run);
            |OtpsOf(At(cfg, start, run + more).t, u)|
            <= |OtpsOf(s.t, u)| + |DueCalls(s, u)| + RateBounds.MostGrants(cfg.quota, k)
  {
    var s, s' := At(cfg, start, run), At(cfg, start, run + more);
    RowsNeedGrants(cfg, start, run, more, u, s.clock, k * cfg.windowMs);
    LimitsInRuns(cfg, start, run + more, u);
    RateBounds.TraceBound(cfg.quota, cfg.windowMs, LimitOf(s', u), s'.clock, s.clock, k);
  }
}
