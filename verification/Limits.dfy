/** The rate limiter inside the service: one window counter per user, asked at the service's own clock. */
module Limits {
  import opened Prelude
  import opened Schema
  import RateLimit
  import RateBounds
  import opened System
  import opened Steps
  import opened Frames
  import opened Lifecycle

  ghost predicate LimitSound(cfg: Config, s: State, u: Id) {
    RateLimit.Sound(cfg.quota, cfg.windowMs, LimitOf(s, u), s.clock)
  }

  lemma AccountsKeepLimits(cfg: Config, s: State, a: Action)
    requires AccountAction(a)
    ensures Step(cfg, s, a).limits == s.limits
  {
  }

  lemma SessionsKeepLimits(cfg: Config, s: State, a: Action)
    requires SessionAction(a) || RequestAction(a)
    ensures Step(cfg, s, a).limits == s.limits
  {
  }

  lemma OthersKeepLimits(cfg: Config, s: State, a: Action)
    requires !a.IssueAsk? && !a.IssueArm?
    ensures Step(cfg, s, a).limits == s.limits
  {
    if AccountAction(a) {
      AccountsKeepLimits(cfg, s, a);
    } else if SessionAction(a) || RequestAction(a) {
      SessionsKeepLimits(cfg, s, a);
    }
  }

  lemma AskKeepsSound(cfg: Config, s: State, call: nat, u: Id)
    requires call in s.calls && s.calls[call].AskCall? && LimitSound(cfg, s, u)
    ensures LimitSound(cfg, AskIssue(cfg, s, call), u)
  {
    RateLimit.CommandKeepsSound(cfg.quota, cfg.windowMs, LimitOf(s, u), RateLimit.Command.Attempt(s.clock), s.clock);
  }

  lemma ArmKeepsSound(cfg: Config, s: State, call: nat, u: Id)
    requires call in s.calls && s.calls[call].ArmCall? && LimitSound(cfg, s, u)
    ensures LimitSound(cfg, ArmIssue(cfg, s, call), u)
  {
    RateLimit.CommandKeepsSound(cfg.quota, cfg.windowMs, LimitOf(s, u), RateLimit.Command.Arm(s.clock), s.clock);
  }

  lemma StepKeepsSound(cfg: Config, s: State, a: Action, u: Id)
    requires LimitSound(cfg, s, u)
    ensures LimitSound(cfg, Step(cfg, s, a), u)
  {
    if a.IssueAsk? {
      if a.call in s.calls && s.calls[a.call].AskCall? {
        AskKeepsSound(cfg, s, a.call, u);
      }
    } else if a.IssueArm? {
      if a.call in s.calls && s.calls[a.call].ArmCall? {
        ArmKeepsSound(cfg, s, a.call, u);
      }
    } else {
      OthersKeepLimits(cfg, s, a);
      ClockForward(cfg, s, a);
      RateBounds.SoundAtLaterTime(cfg.quota, cfg.windowMs, LimitOf(s, u), s.clock, Step(cfg, s, a).clock);
    }
  }

  /** In every reached state each user's counter tells the truth about its window and its grants. */
  lemma {:induction false} LimitsInRuns(cfg: Config, start: Time, run: seq<Action>, u: Id)
    ensures LimitSound(cfg, At(cfg, start, run), u)
  {
    if run == [] {
      forall f ensures RateLimit.SoundIn(cfg.quota, cfg.windowMs, RateLimit.START, start, f) {}
    } else {
      LimitsInRuns(cfg, start, run[..|run| - 1], u);
      StepKeepsSound(cfg, At(cfg, start, run[..|run| - 1]), run[|run| - 1], u);
    }
  }

  /** The limiter grants the user's next n attempts at this time. */
  predicate RoomFor(cfg: Config, s: State, u: Id, n: nat) {
    var k := RateLimit.Live(LimitOf(s, u).counter, s.clock);
    (if k.Some? then k.value.count else 0) + n <= cfg.quota
  }

  lemma AskOpens(cfg: Config, s: State, call: nat)
    requires call in s.calls && s.calls[call].AskCall? && cfg.quota >= 1
    requires RateLimit.Live(LimitOf(s, s.calls[call].userId).counter, s.clock).None?
    ensures var c, s' := s.calls[call], AskIssue(cfg, s, call);
            && s' == s.(limits := s'.limits, calls := s.calls[call := ArmCall(c.userId, c.email, true)])
            && LimitOf(s', c.userId).counter == Some(RateLimit.Counter(1, None))
  {
    RateLimit.Opens(cfg.quota, cfg.windowMs, LimitOf(s, s.calls[call].userId), s.clock);
  }

  lemma AskJoins(cfg: Config, s: State, call: nat)
    requires call in s.calls && s.calls[call].AskCall? && LimitOf(s, s.calls[call].userId).openings != []
    requires var k := RateLimit.Live(LimitOf(s, s.calls[call].userId).counter, s.clock);
             k.Some? && k.value.count < cfg.quota
    ensures var c, s' := s.calls[call], AskIssue(cfg, s, call);
            var k := LimitOf(s, c.userId).counter.value;
            && s' == s.(limits := s'.limits, calls := s.calls[call := IssueCall(c.userId, c.email)])
            && LimitOf(s', c.userId).counter == Some(k.(count := k.count + 1))
  {
    RateLimit.Joins(cfg.quota, cfg.windowMs, LimitOf(s, s.calls[call].userId), s.clock);
  }

  lemma Arms(cfg: Config, s: State, call: nat)
    requires call in s.calls && s.calls[call].ArmCall? && s.calls[call].allowed
    requires LimitOf(s, s.calls[call].userId).counter == Some(RateLimit.Counter(1, None))
    ensures var c, s' := s.calls[call], ArmIssue(cfg, s, call);
            && s' == s.(limits := s'.limits, calls := s.calls[call := IssueCall(c.userId, c.email)])
            && LimitOf(s', c.userId).counter == Some(RateLimit.Counter(1, Some(s.clock + cfg.windowMs)))
  {
  }

  /** An issue asks the limiter; if it opened the window, it sets its end. */
  ghost function Admit(cfg: Config, s: State, call: nat): State {
    Step(cfg, Step(cfg, s, IssueAsk(call)), IssueArm(call))
  }

  /** An issue the limiter has room for is let through. */
  lemma AdmittedWithRoom(cfg: Config, s: State, call: nat, n: nat)
    requires call in s.calls && s.calls[call].AskCall? && n >= 1
    requires LimitSound(cfg, s, s.calls[call].userId) && RoomFor(cfg, s, s.calls[call].userId, n)
    ensures var c, s' := s.calls[call], Admit(cfg, s, call);
            && s' == s.(limits := s'.limits, calls := s.calls[call := IssueCall(c.userId, c.email)])
            && LimitSound(cfg, s', c.userId) && RoomFor(cfg, s', c.userId, n - 1)
  {
    var u := s.calls[call].userId;
    StepKeepsSound(cfg, s, IssueAsk(call), u);
    StepKeepsSound(cfg, Step(cfg, s, IssueAsk(call)), IssueArm(call), u);
    if RateLimit.Live(LimitOf(s, u).counter, s.clock).None? {
      AskOpens(cfg, s, call);
      Arms(cfg, Step(cfg, s, IssueAsk(call)), call);
    } else {
      assert RateLimit.SoundIn(cfg.quota, cfg.windowMs, LimitOf(s, u), s.clock, RateLimit.CounterFacet);
      AskJoins(cfg, s, call);
    }
  }
}
