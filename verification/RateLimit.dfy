/**
 * The Redis window counter behind OTP requests. INCR and EXPIRE are two separate commands, so other requests for the
 * same user may run between them; the bounds proved hold however late, or even if never, the EXPIRE arrives.
 */
module RateLimit {
  import opened Prelude
  import opened Schema

  type Pos = n: int | n >= 1 witness 1

  /** A key's value: the count, and when the key disappears once EXPIRE has been sent. */
  datatype Counter = Counter(count: Pos, deadline: Option<Time>)

  /** What a command finds at `now`: a key past its deadline is gone. */
  function Live(c: Option<Counter>, now: Time): Option<Counter> {
    if c.Some? && c.value.deadline.Some? && now >= c.value.deadline.value then None else c
  }

  function Incremented(c: Option<Counter>, now: Time): Counter {
    match Live(c, now)
    case None => Counter(1, None)
    case Some(k) => k.(count := k.count + 1)
  }

  function Armed(c: Option<Counter>, now: Time, window: int): Option<Counter> {
    match Live(c, now)
    case None => None
    case Some(k) => Some(k.(deadline := Some(now + window)))
  }

  class Redis {
    var keys: map<Id, Counter>

    constructor ()
      ensures keys == map[]
    {
      keys := map[];
    }

    function At(k: Id): Option<Counter>
      reads this
    {
      if k in keys then Some(keys[k]) else None
    }

    method Incr(now: Time, k: Id) returns (count: Pos)
      modifies this
      ensures At(k) == Some(Incremented(old(At(k)), now)) && count == At(k).value.count
      ensures forall j | j != k :: At(j) == old(At(j))
    {
      keys := keys[k := Incremented(At(k), now)];
      count := keys[k].count;
    }

    method Expire(now: Time, k: Id, window: int)
      modifies this
      ensures At(k) == Armed(old(At(k)), now, window)
      ensures forall j | j != k :: At(j) == old(At(j))
    {
      var c := Armed(At(k), now, window);
      keys := if c.Some? then keys[k := c.value] else keys - {k};
    }
  }

  class RedisRateLimitGuard {
    const redis: Redis
    const maxAttemptsPerWindow: int
    const window: int

    constructor (redis: Redis, maxAttemptsPerWindow: int, window: int)
      ensures this.redis == redis && this.maxAttemptsPerWindow == maxAttemptsPerWindow && this.window == window
    {
      this.redis, this.maxAttemptsPerWindow, this.window := redis, maxAttemptsPerWindow, window;
    }

    /** One attempt with its EXPIRE, when it sends one, running at `armedAt` and nothing in between. */
    method Allow(now: Time, armedAt: Time, userId: Id) returns (allowed: bool)
      requires now <= armedAt
      modifies redis
      ensures var was := Live(old(redis.At(userId)), now);
              && (allowed <==> (if was.None? then 0 else was.value.count) < maxAttemptsPerWindow)
              && redis.At(userId) == Some(if was.None? then Counter(1, Some(armedAt + window))
                                          else Counter(was.value.count + 1, was.value.deadline))
      ensures forall j | j != userId :: redis.At(j) == old(redis.At(j))
    {
      var attemptCount := redis.Incr(now, userId);
      if attemptCount == 1 {
        redis.Expire(armedAt, userId, window);
      }
      allowed := attemptCount <= maxAttemptsPerWindow;
    }
  }

  // ------------------------------------------------------------------------------- any interleaving, one user

  /** One command reaching Redis for this user: an attempt's INCR, or the EXPIRE of the attempt that saw 1. */
  datatype Command = Attempt(at: Time) | Arm(at: Time)

  /** An attempt as it was answered, and the window (the life of one key) it fell into. */
  datatype Answer = Answer(at: Time, window: nat, allowed: bool)

  /** `openings` holds the time of the INCR that created each window's key. */
  datatype Trace = Trace(counter: Option<Counter>, openings: seq<Time>, answers: seq<Answer>)

  const START := Trace(None, [], [])

  /** A key cannot disappear before its own EXPIRE has run, so each EXPIRE finds its window's key, still unarmed. */
  function Apply(max: int, window: int, s: Trace, c: Command): Trace {
    match c
    case Attempt(now) =>
      var k := Incremented(s.counter, now);
      var openings := if Live(s.counter, now).None? then s.openings + [now] else s.openings;
      if openings == [] then s
      else Trace(Some(k), openings, s.answers + [Answer(now, |openings| - 1, k.count <= max)])
    case Arm(now) =>
      if s.counter.Some? && s.counter.value.deadline.None?
      then s.(counter := Armed(s.counter, now, window)) else s
  }

  function Served(max: int, window: int, cs: seq<Command>): Trace {
    if cs == [] then START else Apply(max, window, Served(max, window, cs[..|cs| - 1]), cs[|cs| - 1])
  }

  /** Commands reach Redis in the order of its clock. */
  ghost predicate InOrder(cs: seq<Command>) {
    forall i, j | 0 <= i < j < |cs| :: cs[i].at <= cs[j].at
  }

  /** The allowed attempts, oldest first. */
  function Granted(answers: seq<Answer>): seq<Answer> {
    if answers == [] then []
    else
      var last := answers[|answers| - 1];
      Granted(answers[..|answers| - 1]) + (if last.allowed then [last] else [])
  }

  function Times(answers: seq<Answer>): (r: seq<Time>)
    ensures |r| == |answers| && forall i | 0 <= i < |r| :: r[i] == answers[i].at
  {
    seq(|answers|, i requires 0 <= i < |answers| => answers[i].at)
  }

  /** How many of these attempts fell into window w. */
  function InWindow(answers: seq<Answer>, w: nat): nat {
    if answers == [] then 0
    else InWindow(answers[..|answers| - 1], w) + (if answers[|answers| - 1].window == w then 1 else 0)
  }

  /** Windows follow one another, at least a window length apart once the earlier one has been armed. */
  ghost predicate WindowsSpaced(openings: seq<Time>, window: int) {
    forall i, j | 0 <= i < |openings| && 0 <= j < |openings| && j == i + 1 :: openings[j] - openings[i] >= window
  }

  /** Each granted attempt lies at or after the opening of its window and before that of the next. */
  ghost predicate InsideWindows(g: seq<Answer>, openings: seq<Time>, window: int) {
    forall i | 0 <= i < |g| ::
      && g[i].window < |openings| && openings[g[i].window] <= g[i].at
      && (window >= 1 && g[i].window + 1 < |openings| ==> g[i].at < openings[g[i].window + 1])
  }

  predicate AtOpening(a: Answer, openings: seq<Time>) {
    a.window < |openings| && a.at == openings[a.window]
  }

  /** The first grant of each window is the attempt that opened it. */
  ghost predicate OpenedByGrants(g: seq<Answer>, openings: seq<Time>) {
    && (g != [] ==> AtOpening(g[0], openings))
    && (forall i, j | 0 <= i < |g| && 0 <= j < |g| && j == i + 1 && g[i].window != g[j].window ::
          AtOpening(g[j], openings))
  }

  /** The attempt max places later is in a later window. */
  ghost predicate WindowsMoveOn(g: seq<Answer>, max: nat) {
    && (forall i, j | 0 <= i < j < |g| :: g[i].window <= g[j].window)
    && (forall i, j | 0 <= i < |g| && 0 <= j < |g| && j == i + max :: g[i].window < g[j].window)
  }

  /** How many grants the current window has made. */
  function Used(max: nat, c: Counter): nat {
    if c.count < max then c.count else max
  }

  /** The counter tells the truth about the current window: its attempts, its grants, and its earliest end. */
  ghost predicate CounterTrue(max: nat, window: int, s: Trace, now: Time)
    requires s.openings != [] && s.counter.Some?
  {
    var last, c, g := |s.openings| - 1, s.counter.value, Granted(s.answers);
    && s.openings[last] <= now
    && InWindow(s.answers, last) == c.count
    && (c.deadline.Some? ==> c.deadline.value >= s.openings[last] + window)
    && (c.deadline.Some? && window >= 1 ==> forall i | 0 <= i < |g| :: g[i].at < c.deadline.value)
    && Used(max, c) <= |g|
    && (forall i | 0 <= i < |g| :: g[i].window == last <==> i >= |g| - Used(max, c))
  }

  /** Granted attempts in the order of time, each in its window, at most max to a window. */
  ghost predicate GrantsTrue(max: nat, window: int, g: seq<Answer>, openings: seq<Time>, now: Time) {
    && InsideWindows(g, openings, window)
    && OpenedByGrants(g, openings)
    && WindowsMoveOn(g, max)
    && (forall i, j | 0 <= i < j < |g| :: g[i].at <= g[j].at)
    && (forall i | 0 <= i < |g| :: g[i].at <= now)
  }

  ghost predicate AnswersTrue(s: Trace) {
    forall i | 0 <= i < |s.answers| :: s.answers[i].window < |s.openings|
  }

  datatype Facet = CounterFacet | AnswersFacet | OpeningsFacet | GrantsFacet

  ghost predicate SoundIn(max: nat, window: int, s: Trace, now: Time, f: Facet) {
    match f
    case CounterFacet =>
      (s.openings == [] <==> s.counter.None?) && (s.openings != [] ==> CounterTrue(max, window, s, now))
    case AnswersFacet => AnswersTrue(s)
    case OpeningsFacet => WindowsSpaced(s.openings, window)
    case GrantsFacet => GrantsTrue(max, window, Granted(s.answers), s.openings, now)
  }

  ghost predicate Sound(max: nat, window: int, s: Trace, now: Time) {
    forall f :: SoundIn(max, window, s, now, f)
  }

  lemma {:induction false} GrantsComeFromAnswers(answers: seq<Answer>, n: nat)
    requires forall i | 0 <= i < |answers| :: answers[i].window < n
    ensures forall i | 0 <= i < |Granted(answers)| :: Granted(answers)[i].window < n
  {
    if answers != [] {
      GrantsComeFromAnswers(answers[..|answers| - 1], n);
    }
  }

  lemma {:induction false} NoneInNewWindow(answers: seq<Answer>, n: nat)
    requires forall i | 0 <= i < |answers| :: answers[i].window < n
    ensures InWindow(answers, n) == 0
  {
    if answers != [] {
      NoneInNewWindow(answers[..|answers| - 1], n);
    }
  }

  lemma AnswerAppended(answers: seq<Answer>, a: Answer, w: nat)
    ensures Granted(answers + [a]) == Granted(answers) + (if a.allowed then [a] else [])
    ensures InWindow(answers + [a], w) == InWindow(answers, w) + (if a.window == w then 1 else 0)
  {
    assert (answers + [a])[..|answers|] == answers;
  }

  /** One more grant in the newest window, which has room, keeps the earlier ones in place. */
  lemma GrantAppended(max: nat, window: int, g: seq<Answer>, a: Answer, openings: seq<Time>)
    requires openings != [] && a.window == |openings| - 1 && openings[|openings| - 1] <= a.at
    requires GrantsTrue(max, window, g, openings, a.at)
    requires forall i | 0 <= i < |g| :: g[i].window <= a.window
    requires max >= 1 && (|g| >= max ==> g[|g| - max].window < a.window)
    requires a.at == openings[|openings| - 1] || (g != [] && g[|g| - 1].window == a.window)
    ensures GrantsTrue(max, window, g + [a], openings, a.at)
  {
    assert OpenedByGrants(g + [a], openings) by {
      OpeningsStay(g, a, openings);
    }
  }

  lemma OpeningsStay(g: seq<Answer>, a: Answer, openings: seq<Time>)
    requires OpenedByGrants(g, openings) && a.window < |openings|
    requires a.at == openings[a.window] || (g != [] && g[|g| - 1].window == a.window)
    ensures OpenedByGrants(g + [a], openings)
  {
    var g' := g + [a];
    forall i, j | 0 <= i < |g'| && 0 <= j < |g'| && j == i + 1 && g'[i].window != g'[j].window
      ensures AtOpening(g'[j], openings)
    {
      if j < |g| {
        assert g[i].window != g[j].window;
      }
    }
  }

  lemma GrantsSeeNewWindow(max: nat, window: int, g: seq<Answer>, openings: seq<Time>, now: Time, before: Time)
    requires GrantsTrue(max, window, g, openings, before) && before <= now
    requires window >= 1 ==> forall i | 0 <= i < |g| && g[i].window == |openings| - 1 :: g[i].at < now
    ensures GrantsTrue(max, window, g, openings + [now], now)
  {
  }

  /** An attempt that finds no key opens a window. */
  lemma Opens(max: nat, window: int, s: Trace, now: Time)
    requires Live(s.counter, now).None?
    ensures Apply(max, window, s, Attempt(now))
         == Trace(Some(Counter(1, None)), s.openings + [now], s.answers + [Answer(now, |s.openings|, 1 <= max)])
  {
  }

  /** An attempt that finds the key joins its window and leaves its deadline alone. */
  lemma Joins(max: nat, window: int, s: Trace, now: Time)
    requires Live(s.counter, now).Some? && s.openings != []
    ensures var c := s.counter.value;
            Apply(max, window, s, Attempt(now))
            == Trace(Some(Counter(c.count + 1, c.deadline)), s.openings,
                     s.answers + [Answer(now, |s.openings| - 1, c.count + 1 <= max)])
  {
  }

  lemma NewWindowCounts(max: nat, window: int, s: Trace, now: Time, before: Time)
    requires Sound(max, window, s, before) && before <= now && Live(s.counter, now).None?
    ensures SoundIn(max, window, Apply(max, window, s, Attempt(now)), now, CounterFacet)
  {
    assert AnswersTrue(s) by {
      assert SoundIn(max, window, s, before, AnswersFacet);
    }
    var n := |s.openings|;
    Opens(max, window, s, now);
    AnswerAppended(s.answers, Answer(now, n, 1 <= max), n);
    GrantsComeFromAnswers(s.answers, n);
    NoneInNewWindow(s.answers, n);
  }

  /** Every grant so far lies in a window that has been opened, and before the end of the newest. */
  lemma GrantsBeforeNewWindow(max: nat, window: int, s: Trace, now: Time, before: Time)
    requires Sound(max, window, s, before) && before <= now && Live(s.counter, now).None?
    ensures var g := Granted(s.answers);
            && GrantsTrue(max, window, g, s.openings, before)
            && (forall i | 0 <= i < |g| :: g[i].window < |s.openings|)
            && (window >= 1 ==> forall i | 0 <= i < |g| && g[i].window == |s.openings| - 1 :: g[i].at < now)
  {
    assert SoundIn(max, window, s, before, GrantsFacet);
    assert SoundIn(max, window, s, before, CounterFacet);
  }

  lemma FirstGrant(max: nat, window: int, g: seq<Answer>, openings: seq<Time>, now: Time)
    requires max >= 1 && openings != [] && openings[|openings| - 1] == now
    requires GrantsTrue(max, window, g, openings, now) && forall i | 0 <= i < |g| :: g[i].window < |openings| - 1
    ensures GrantsTrue(max, window, g + [Answer(now, |openings| - 1, true)], openings, now)
  {
    GrantAppended(max, window, g, Answer(now, |openings| - 1, true), openings);
  }

  lemma NewWindowGrants(max: nat, window: int, s: Trace, now: Time, before: Time)
    requires Sound(max, window, s, before) && before <= now && Live(s.counter, now).None?
    ensures SoundIn(max, window, Apply(max, window, s, Attempt(now)), now, GrantsFacet)
  {
    var g, openings := Granted(s.answers), s.openings + [now];
    GrantsBeforeNewWindow(max, window, s, now, before);
    GrantsSeeNewWindow(max, window, g, s.openings, now, before);
    Opens(max, window, s, now);
    AnswerAppended(s.answers, Answer(now, |s.openings|, 1 <= max), 0);
    if max >= 1 {
      FirstGrant(max, window, g, openings, now);
    }
  }

  lemma NewWindow(max: nat, window: int, s: Trace, now: Time, before: Time, f: Facet)
    requires Sound(max, window, s, before) && before <= now && Live(s.counter, now).None?
    ensures SoundIn(max, window, Apply(max, window, s, Attempt(now)), now, f)
  {
    match f
    case CounterFacet => NewWindowCounts(max, window, s, now, before);
    case GrantsFacet => NewWindowGrants(max, window, s, now, before);
    case AnswersFacet =>
      assert SoundIn(max, window, s, before, f);
      Opens(max, window, s, now);
    case OpeningsFacet =>
      assert SoundIn(max, window, s, before, f);
      assert SoundIn(max, window, s, before, CounterFacet);
      Opens(max, window, s, now);
  }

  lemma SameWindowCounts(max: nat, window: int, s: Trace, now: Time, before: Time)
    requires Sound(max, window, s, before) && before <= now && Live(s.counter, now).Some?
    ensures SoundIn(max, window, Apply(max, window, s, Attempt(now)), now, CounterFacet)
  {
    assert SoundIn(max, window, s, before, CounterFacet);
    assert SoundIn(max, window, s, before, AnswersFacet);
    var last := |s.openings| - 1;
    AnswerAppended(s.answers, Answer(now, last, s.counter.value.count + 1 <= max), last);
  }

  /** While the count is below max, the grant max places back belongs to an earlier window. */
  lemma RoomLeft(max: nat, window: int, s: Trace, before: Time)
    requires Sound(max, window, s, before) && s.counter.Some? && s.counter.value.count < max
    ensures var g, last := Granted(s.answers), |s.openings| - 1;
            && last >= 0 && s.openings[last] <= before && (forall i | 0 <= i < |g| :: g[i].window <= last)
            && (|g| >= max ==> g[|g| - max].window < last) && g != [] && g[|g| - 1].window == last
  {
    assert SoundIn(max, window, s, before, CounterFacet);
    assert SoundIn(max, window, s, before, AnswersFacet);
    GrantsComeFromAnswers(s.answers, |s.openings|);
  }

  lemma GrantsLater(max: nat, window: int, g: seq<Answer>, openings: seq<Time>, now: Time, before: Time)
    requires GrantsTrue(max, window, g, openings, before) && before <= now
    ensures GrantsTrue(max, window, g, openings, now)
  {
  }

  lemma SameWindowGrants(max: nat, window: int, s: Trace, now: Time, before: Time)
    requires Sound(max, window, s, before) && before <= now && Live(s.counter, now).Some? && s.openings != []
    ensures SoundIn(max, window, Apply(max, window, s, Attempt(now)), now, GrantsFacet)
  {
    var g := Granted(s.answers);
    var a := Answer(now, |s.openings| - 1, s.counter.value.count + 1 <= max);
    Joins(max, window, s, now);
    AnswerAppended(s.answers, a, 0);
    assert GrantsTrue(max, window, g, s.openings, now) by {
      assert SoundIn(max, window, s, before, GrantsFacet);
      GrantsLater(max, window, g, s.openings, now, before);
    }
    if a.allowed {
      RoomLeft(max, window, s, before);
      GrantAppended(max, window, g, a, s.openings);
    }
  }

  lemma SameWindow(max: nat, window: int, s: Trace, now: Time, before: Time, f: Facet)
    requires Sound(max, window, s, before) && before <= now && Live(s.counter, now).Some?
    ensures SoundIn(max, window, Apply(max, window, s, Attempt(now)), now, f)
  {
    assert SoundIn(max, window, s, before, CounterFacet);
    match f
    case CounterFacet => SameWindowCounts(max, window, s, now, before);
    case GrantsFacet => SameWindowGrants(max, window, s, now, before);
    case _ =>
      assert SoundIn(max, window, s, before, f);
      Joins(max, window, s, now);
  }

  lemma ArmingCounts(max: nat, window: int, s: Trace, now: Time, before: Time)
    requires SoundIn(max, window, s, before, CounterFacet) && SoundIn(max, window, s, before, GrantsFacet)
    requires before <= now
    ensures SoundIn(max, window, Apply(max, window, s, Arm(now)), now, CounterFacet)
  {
    if s.openings != [] && s.counter.value.deadline.None? {
      var g := Granted(s.answers);
      assert forall i | 0 <= i < |g| :: g[i].at <= before;
    }
  }

  lemma Arming(max: nat, window: int, s: Trace, now: Time, before: Time, f: Facet)
    requires Sound(max, window, s, before) && before <= now
    ensures SoundIn(max, window, Apply(max, window, s, Arm(now)), now, f)
  {
    assert SoundIn(max, window, s, before, f);
    match f
    case CounterFacet =>
      assert SoundIn(max, window, s, before, GrantsFacet);
      ArmingCounts(max, window, s, now, before);
    case GrantsFacet => GrantsLater(max, window, Granted(s.answers), s.openings, now, before);
    case _ =>
  }

  lemma CommandKeepsSound(max: nat, window: int, s: Trace, c: Command, before: Time)
    requires Sound(max, window, s, before) && before <= c.at
    ensures Sound(max, window, Apply(max, window, s, c), c.at)
  {
    forall f ensures SoundIn(max, window, Apply(max, window, s, c), c.at, f) {
      match c
      case Arm(now) => Arming(max, window, s, now, before, f);
      case Attempt(now) =>
        if Live(s.counter, now).None? {
          NewWindow(max, window, s, now, before, f);
        } else {
          SameWindow(max, window, s, now, before, f);
        }
    }
  }
}
