/** What the rate limiter guarantees over any commands, how sharp that is, and when it behaves as a rolling window. */
module RateBounds {
  import opened Prelude
  import opened Schema
  import opened RateLimit

  function LastTime(cs: seq<Command>): Time {
    if cs == [] then 0 else cs[|cs| - 1].at
  }

  lemma {:induction false} ServedSoundly(max: nat, window: int, cs: seq<Command>)
    requires InOrder(cs)
    ensures Sound(max, window, Served(max, window, cs), LastTime(cs))
  {
    if cs == [] {
      forall f ensures SoundIn(max, window, START, 0, f) {}
    } else {
      var n := |cs| - 1;
      ServedSoundly(max, window, cs[..n]);
      if n == 0 {
        forall f ensures SoundIn(max, window, START, cs[n].at, f) {}
        CommandKeepsSound(max, window, START, cs[n], cs[n].at);
      } else {
        CommandKeepsSound(max, window, Served(max, window, cs[..n]), cs[n], cs[n - 1].at);
      }
    }
  }

  lemma {:induction false} WindowsApart(openings: seq<Time>, window: int, i: nat, k: nat)
    requires WindowsSpaced(openings, window) && i + k < |openings|
    ensures openings[i + k] - openings[i] >= k * window
  {
    if k > 0 {
      WindowsApart(openings, window, i, k - 1);
      assert openings[i + k] - openings[i + k - 1] >= window;
      assert k * window == (k - 1) * window + window;
    }
  }

  lemma {:induction false} LaterWindow(g: seq<Answer>, max: nat, i: nat, k: nat, j: nat)
    requires WindowsMoveOn(g, max) && j == i + k * max && j < |g|
    ensures g[j].window >= g[i].window + k
  {
    if k > 0 {
      assert k * max == (k - 1) * max + max && (k - 1) * max >= 0;
      LaterWindow(g, max, i, k - 1, j - max);
      assert g[j - max].window < g[j].window;
    }
  }

  lemma WindowsApartLater(openings: seq<Time>, window: int, w: nat, v: nat, k: nat)
    requires WindowsSpaced(openings, window) && window >= 0 && w + k <= v < |openings|
    ensures openings[v] - openings[w] >= k * window
  {
    MonotoneOpenings(openings, window, w + k, v);
    WindowsApart(openings, window, w, k);
  }

  /** The n-th grant after a window's first, n being k * max, is in the k-th window after it, or later. */
  lemma FirstGrantsSpread(max: nat, window: int, g: seq<Answer>, openings: seq<Time>, now: Time, i: nat, k: nat, n: nat,
                          j: nat)
    requires GrantsTrue(max, window, g, openings, now) && WindowsSpaced(openings, window) && window >= 1
    requires i < |g| && AtOpening(g[i], openings) && n == k * max && i + n <= j < |g|
    ensures g[j].at - g[i].at >= k * window
  {
    assert g[j].window >= g[i].window + k by {
      LaterWindow(g, max, i, k, i + n);
      assert g[i + n].window <= g[j].window;
    }
    WindowsApartLater(openings, window, g[i].window, g[j].window, k);
  }

  /** A grant that is not its window's first leaves room for at most max - 2 more in it. */
  lemma OtherGrantsSpread(max: nat, window: int, g: seq<Answer>, openings: seq<Time>, now: Time, i: nat, k: nat, j: nat)
    requires GrantsTrue(max, window, g, openings, now) && WindowsSpaced(openings, window) && window >= 1
    requires 0 < i < |g| && g[i - 1].window == g[i].window && j == i - 1 + (k + 1) * max && j < |g|
    ensures g[j].at - g[i].at >= k * window
  {
    LaterWindow(g, max, i - 1, k + 1, j);
    WindowsApartLater(openings, window, g[i].window + 1, g[j].window, k);
  }

  lemma GrantsSpread(max: nat, window: int, g: seq<Answer>, openings: seq<Time>, now: Time, i: nat, k: nat, m: nat)
    requires GrantsTrue(max, window, g, openings, now) && WindowsSpaced(openings, window) && window >= 1
    requires max >= 1 && m == (k + 1) * max - 1 && i + m < |g|
    ensures g[i + m].at - g[i].at >= k * window
  {
    if i > 0 && g[i - 1].window == g[i].window {
      OtherGrantsSpread(max, window, g, openings, now, i, k, i + m);
    } else {
      assert AtOpening(g[i], openings);
      assert (k + 1) * max == k * max + max;
      FirstGrantsSpread(max, window, g, openings, now, i, k, k * max, i + m);
    }
  }

  lemma GrantsSpaced(max: nat, window: int, g: seq<Answer>, openings: seq<Time>, now: Time, k: nat, m: nat)
    requires GrantsTrue(max, window, g, openings, now) && WindowsSpaced(openings, window) && window >= 1
    requires max >= 1 && m == (k + 1) * max - 1
    ensures Ascending(Times(g)) && Spaced(Times(g), m, k * window)
  {
    var times := Times(g);
    forall i, j | 0 <= i < |times| && 0 <= j < |times| && j == i + m ensures times[j] - times[i] >= k * window {
      GrantsSpread(max, window, g, openings, now, i, k, m);
    }
  }

  /** How many attempts the trace has granted in the half-open interval of length `span` from `from`. */
  function GrantedIn(s: Trace, from: Time, span: int): nat {
    CountIn(Times(Granted(s.answers)), from, from + span)
  }

  function GrantsIn(max: nat, window: int, cs: seq<Command>, from: Time, span: int): nat {
    GrantedIn(Served(max, window, cs), from, span)
  }

  lemma GrantsInInterval(max: nat, window: int, s: Trace, now: Time, from: Time, k: nat, m: nat, span: nat)
    requires Sound(max, window, s, now) && window >= 1 && max >= 1 && m == (k + 1) * max - 1 && span == k * window
    ensures GrantedIn(s, from, span) <= m
  {
    var g := Granted(s.answers);
    assert SoundIn(max, window, s, now, GrantsFacet) && SoundIn(max, window, s, now, OpeningsFacet);
    GrantsSpaced(max, window, g, s.openings, now, k, m);
    SpacingBoundsCount(Times(g), m, from, span);
  }

  lemma NoQuotaNoGrant(window: int, s: Trace, now: Time)
    requires Sound(0, window, s, now)
    ensures Granted(s.answers) == []
  {
    var g := Granted(s.answers);
    assert SoundIn(0, window, s, now, GrantsFacet);
    if g != [] {
      assert false;
    }
  }

  lemma AtLeastOneEach(max: nat, k: nat)
    requires max >= 1
    ensures (k + 1) * max >= 1
  {
    assert k * max >= 0 && (k + 1) * max == k * max + max;
  }

  /** The most grants an interval of k window lengths can hold. */
  function MostGrants(max: nat, k: nat): nat {
    if max == 0 then 0 else
      AtLeastOneEach(max, k);
      (k + 1) * max - 1
  }

  lemma TraceBound(max: nat, window: int, s: Trace, now: Time, from: Time, k: nat)
    requires Sound(max, window, s, now)
    ensures GrantedIn(s, from, k * window) <= MostGrants(max, k)
  {
    var span := k * window;
    assert (window < 1 ==> span <= 0) && (window >= 1 ==> span >= 0);
    if max == 0 {
      NoQuotaNoGrant(window, s, now);
    } else if window < 1 {
      EmptyInterval(Times(Granted(s.answers)), from, from + span);
    } else {
      GrantsInInterval(max, window, s, now, from, k, MostGrants(max, k), span);
    }
  }

  /** However INCRs and EXPIREs interleave, an interval of k window lengths holds at most (k + 1) * max - 1 grants. */
  lemma RateBound(max: nat, window: int, cs: seq<Command>, from: Time, k: nat)
    requires InOrder(cs)
    ensures GrantsIn(max, window, cs, from, k * window) <= if max == 0 then 0 else (k + 1) * max - 1
  {
    ServedSoundly(max, window, cs);
    TraceBound(max, window, Served(max, window, cs), LastTime(cs), from, k);
  }

  lemma {:induction false} MonotoneOpenings(openings: seq<Time>, window: int, i: nat, j: nat)
    requires WindowsSpaced(openings, window) && window >= 0 && i <= j < |openings|
    ensures openings[i] <= openings[j]
  {
    if i < j {
      MonotoneOpenings(openings, window, i, j - 1);
      assert openings[j] - openings[j - 1] >= window;
    }
  }

  lemma NewestAnswer(max: nat, window: int, s: Trace, now: Time, before: Time)
    requires Sound(max, window, s, before) && before <= now
    ensures var s' := Apply(max, window, s, Attempt(now));
            && |s'.answers| == |s.answers| + 1 && s'.answers[..|s.answers|] == s.answers
            && (s'.answers[|s.answers|].allowed <==> InWindow(s.answers, s'.answers[|s.answers|].window) < max)
  {
    assert SoundIn(max, window, s, before, CounterFacet) && SoundIn(max, window, s, before, AnswersFacet);
    NoneInNewWindow(s.answers, |s.openings|);
  }

  /** Each window grants exactly its first max attempts. */
  lemma {:induction false} ExactlyTheFirst(max: nat, window: int, cs: seq<Command>, j: nat)
    requires InOrder(cs) && j < |Served(max, window, cs).answers|
    ensures var answers := Served(max, window, cs).answers;
            answers[j].allowed <==> InWindow(answers[..j], answers[j].window) < max
  {
    var n := |cs| - 1;
    var s, c := Served(max, window, cs[..n]), cs[n];
    ServedSoundly(max, window, cs[..n]);
    if c.Attempt? {
      SoundLater(max, window, s, cs, n);
      NewestAnswer(max, window, s, c.at, c.at);
    }
    if j < |s.answers| {
      ExactlyTheFirst(max, window, cs[..n], j);
      assert Served(max, window, cs).answers[..j] == s.answers[..j];
    }
  }

  lemma SoundAtLaterTime(max: nat, window: int, s: Trace, now: Time, later: Time)
    requires Sound(max, window, s, now) && now <= later
    ensures Sound(max, window, s, later)
  {
    forall f ensures SoundIn(max, window, s, later, f) {
      assert SoundIn(max, window, s, now, f);
    }
  }

  lemma SoundLater(max: nat, window: int, s: Trace, cs: seq<Command>, n: nat)
    requires InOrder(cs) && n < |cs| && s == Served(max, window, cs[..n])
    ensures Sound(max, window, s, cs[n].at)
  {
    if n == 0 {
      forall f ensures SoundIn(max, window, s, cs[n].at, f) {}
    } else {
      ServedSoundly(max, window, cs[..n]);
      SoundAtLaterTime(max, window, s, LastTime(cs[..n]), cs[n].at);
    }
  }

  /**
   * After any commands: the next attempt is granted exactly when the quota is positive and there is no window, or the
   * current one has room, or it was armed and is over. A refusal leaves the window's end where it was.
   */
  lemma GrantedAgainExactly(max: nat, window: int, cs: seq<Command>, now: Time)
    requires InOrder(cs)
    ensures var s, s' := Served(max, window, cs), Served(max, window, cs + [Attempt(now)]);
            var n := |s.answers|;
            && |s'.answers| == n + 1 && s'.answers[..n] == s.answers && s'.answers[n].at == now
            && (s'.answers[n].allowed <==>
                  && max >= 1
                  && (s.counter.None? || s.counter.value.count < max
                      || (s.counter.value.deadline.Some? && now >= s.counter.value.deadline.value)))
            && (max >= 1 && !s'.answers[n].allowed ==>
                  s'.counter.Some? && s'.counter.value.deadline == s.counter.value.deadline)
  {
    assert (cs + [Attempt(now)])[..|cs|] == cs;
    ServedSoundly(max, window, cs);
    assert SoundIn(max, window, Served(max, window, cs), LastTime(cs), CounterFacet);
  }

  // ------------------------------------------------------------------------- the bound is reached

  function Repeated(t: Time, n: nat): seq<Command> {
    if n == 0 then [] else Repeated(t, n - 1) + [Attempt(t)]
  }

  /** One attempt that opens a window at `at`, its EXPIRE, and max - 1 more at `rest`. */
  function Block(at: Time, rest: Time, max: nat): seq<Command>
    requires max >= 1
  {
    [Attempt(at), Arm(at)] + Repeated(rest, max - 1)
  }

  /** A window used up in its last moment, and then k windows used up at once. */
  function Bursts(max: nat, window: int, k: nat): seq<Command>
    requires max >= 1
  {
    if k == 0 then Block(0, window - 1, max)
    else Bursts(max, window, k - 1) + Block(Sum(k, window), Sum(k, window), max)
  }

  lemma ServedNext(max: nat, window: int, cs: seq<Command>, c: Command)
    ensures Served(max, window, cs + [c]) == Apply(max, window, Served(max, window, cs), c)
  {
    assert (cs + [c])[..|cs|] == cs;
  }

  /** An attempt at `t` counted in the interval. */
  function Hit(t: Time, from: Time, span: int): nat {
    if from <= t < from + span then 1 else 0
  }

  lemma GrantCounted(answers: seq<Answer>, a: Answer, from: Time, span: int)
    requires a.allowed
    ensures CountIn(Times(Granted(answers + [a])), from, from + span)
         == CountIn(Times(Granted(answers)), from, from + span) + Hit(a.at, from, span)
  {
    AnswerAppended(answers, a, 0);
    var g := Granted(answers);
    assert Granted(answers + [a]) == g + [a];
    assert Times(g + [a])[..|g|] == Times(g);
  }

  /** A window is open with this count and end, and `m` grants lie in the interval. */
  predicate Filled(max: nat, window: int, cs: seq<Command>, count: nat, end: Time, from: Time, span: int, m: nat) {
    var s := Served(max, window, cs);
    && s.openings != [] && s.counter.Some? && s.counter.value.count == count
    && s.counter.value.deadline == Some(end) && GrantsIn(max, window, cs, from, span) == m
  }

  /** One more attempt in a live window with room is granted. */
  lemma JoinGranted(max: nat, window: int, cs: seq<Command>, t: Time, count: nat, end: Time, from: Time, span: int,
                    m: nat)
    requires Filled(max, window, cs, count, end, from, span, m) && count < max && t < end
    ensures Filled(max, window, cs + [Attempt(t)], count + 1, end, from, span, m + Hit(t, from, span))
  {
    var s := Served(max, window, cs);
    ServedNext(max, window, cs, Attempt(t));
    Joins(max, window, s, t);
    GrantCounted(s.answers, Answer(t, |s.openings| - 1, true), from, span);
  }

  function HitTimes(n: nat, t: Time, from: Time, span: int): nat {
    if Hit(t, from, span) == 1 then n else 0
  }

  lemma RepeatedNext(cs: seq<Command>, t: Time, n: nat)
    requires n >= 1
    ensures cs + Repeated(t, n) == cs + Repeated(t, n - 1) + [Attempt(t)]
  {
  }

  lemma {:induction false} JoinsGranted(max: nat, window: int, cs: seq<Command>, n: nat, t: Time, count: nat, end: Time,
                                        from: Time, span: int, m: nat)
    requires Filled(max, window, cs, count, end, from, span, m) && count + n <= max && t < end
    ensures Filled(max, window, cs + Repeated(t, n), count + n, end, from, span, m + HitTimes(n, t, from, span))
    decreases n
  {
    if n == 0 {
      assert cs + Repeated(t, 0) == cs;
    } else {
      JoinsGranted(max, window, cs, n - 1, t, count, end, from, span, m);
      JoinGranted(max, window, cs + Repeated(t, n - 1), t, count + n - 1, end, from, span,
                  m + HitTimes(n - 1, t, from, span));
      RepeatedNext(cs, t, n);
    }
  }

  /** An attempt that finds no window, and its EXPIRE. */
  lemma OpenGranted(max: nat, window: int, cs: seq<Command>, at: Time, from: Time, span: int)
    requires max >= 1 && Live(Served(max, window, cs).counter, at).None?
    ensures Filled(max, window, cs + [Attempt(at)] + [Arm(at)], 1, at + window, from, span,
                   GrantsIn(max, window, cs, from, span) + Hit(at, from, span))
  {
    var s := Served(max, window, cs);
    ServedNext(max, window, cs, Attempt(at));
    Opens(max, window, s, at);
    ServedNext(max, window, cs + [Attempt(at)], Arm(at));
    GrantCounted(s.answers, Answer(at, |s.openings|, true), from, span);
  }

  /** A block served where no window is live uses one window up. */
  lemma BlockServed(max: nat, window: int, cs: seq<Command>, at: Time, rest: Time, from: Time, span: int)
    requires max >= 1 && at <= rest < at + window && Live(Served(max, window, cs).counter, at).None?
    ensures Filled(max, window, cs + Block(at, rest, max), max, at + window, from, span,
                   GrantsIn(max, window, cs, from, span) + Hit(at, from, span) + HitTimes(max - 1, rest, from, span))
  {
    BlockSplits(cs, at, rest, max);
    OpenedBlockServed(max, window, cs, cs + [Attempt(at)] + [Arm(at)], at, rest, from, span,
                      GrantsIn(max, window, cs, from, span) + Hit(at, from, span));
  }

  lemma OpenedBlockServed(max: nat, window: int, cs: seq<Command>, armed: seq<Command>, at: Time, rest: Time,
                          from: Time, span: int, m: nat)
    requires max >= 1 && at <= rest < at + window && Live(Served(max, window, cs).counter, at).None?
    requires armed == cs + [Attempt(at)] + [Arm(at)] && m == GrantsIn(max, window, cs, from, span) + Hit(at, from, span)
    ensures Filled(max, window, armed + Repeated(rest, max - 1), max, at + window, from, span,
                   m + HitTimes(max - 1, rest, from, span))
  {
    OpenGranted(max, window, cs, at, from, span);
    JoinsGranted(max, window, armed, max - 1, rest, 1, at + window, from, span, m);
  }

  lemma BlockSplits(cs: seq<Command>, at: Time, rest: Time, max: nat)
    requires max >= 1
    ensures cs + Block(at, rest, max) == cs + [Attempt(at)] + [Arm(at)] + Repeated(rest, max - 1)
  {
  }

  lemma FirstBurst(max: nat, window: int, span: int)
    requires max >= 1 && window >= 2 && span >= 1
    ensures Filled(max, window, Bursts(max, window, 0), max, window, window - 1, span, max - 1)
  {
    BlockServed(max, window, [], 0, window - 1, window - 1, span);
    assert [] + Block(0, window - 1, max) == Bursts(max, window, 0);
    assert GrantsIn(max, window, [], window - 1, span) == 0;
  }

  lemma {:induction false} SumGrows(k: nat, x: int)
    requires k >= 1 && x >= 0
    ensures Sum(k, x) >= x
  {
    if k > 1 {
      SumGrows(k - 1, x);
    }
  }

  lemma BurstsNext(max: nat, window: int, k: nat)
    requires max >= 1 && k >= 1
    ensures Bursts(max, window, k) == Bursts(max, window, k - 1) + Block(Sum(k, window), Sum(k, window), max)
    ensures Sum(k, window) == Sum(k - 1, window) + window && Sum(k, max) == Sum(k - 1, max) + max
  {
  }

  /** Once the window is over, a burst at one moment of the interval uses the next one up. */
  lemma BurstUsesUp(max: nat, window: int, cs: seq<Command>, t: Time, from: Time, span: int, m: nat)
    requires max >= 1 && window >= 1 && from <= t < from + span && Filled(max, window, cs, max, t, from, span, m)
    ensures Filled(max, window, cs + Block(t, t, max), max, t + window, from, span, m + max)
  {
    BlockServed(max, window, cs, t, t, from, span);
  }

  /** Every burst uses its window up, and all but the opening attempt of the first lie in the interval. */
  lemma {:induction false} BurstsServed(max: nat, window: int, k: nat, span: int, m: nat)
    requires max >= 1 && window >= 2 && span >= 1 && window - 1 + span > Sum(k, window) && m == Sum(k, max) + max - 1
    ensures Filled(max, window, Bursts(max, window, k), max, Sum(k, window) + window, window - 1, span, m)
    decreases k
  {
    if k == 0 {
      FirstBurst(max, window, span);
    } else {
      SumGrows(k, window);
      BurstsNext(max, window, k);
      if k > 1 {
        SumGrows(k - 1, max);
      }
      BurstsServed(max, window, k - 1, span, m - max);
      BurstUsesUp(max, window, Bursts(max, window, k - 1), Sum(k, window), window - 1, span, m - max);
    }
  }

  lemma {:induction false} RepeatedAt(t: Time, n: nat)
    ensures forall c | c in Repeated(t, n) :: c.at == t
  {
    if n > 0 {
      RepeatedAt(t, n - 1);
    }
  }

  predicate NotAfter(cs: seq<Command>, t: Time) {
    forall i | 0 <= i < |cs| :: cs[i].at <= t
  }

  lemma InOrderConcat(cs: seq<Command>, more: seq<Command>, t: Time)
    requires InOrder(cs) && NotAfter(cs, t) && InOrder(more) && forall i | 0 <= i < |more| :: t <= more[i].at
    ensures InOrder(cs + more)
  {
  }

  lemma BlockInOrder(at: Time, rest: Time, max: nat)
    requires max >= 1 && at <= rest
    ensures var b := Block(at, rest, max);
            InOrder(b) && NotAfter(b, rest) && forall i | 0 <= i < |b| :: at <= b[i].at
  {
    RepeatedAt(rest, max - 1);
    var tail := Repeated(rest, max - 1);
    forall i | 0 <= i < |tail| ensures tail[i].at == rest {
      assert tail[i] in tail;
    }
    InOrderConcat([Attempt(at), Arm(at)], tail, at);
  }

  lemma {:induction false} BurstsInOrder(max: nat, window: int, k: nat)
    requires max >= 1 && window >= 2
    ensures InOrder(Bursts(max, window, k)) && NotAfter(Bursts(max, window, k), Sum(k, window) + window)
  {
    if k == 0 {
      BlockInOrder(0, window - 1, max);
    } else {
      var t := Sum(k, window);
      BurstsInOrder(max, window, k - 1);
      BlockInOrder(t, t, max);
      InOrderConcat(Bursts(max, window, k - 1), Block(t, t, max), t);
    }
  }

  /** The bound is reached, for every quota and every k, by a window length of at least two ticks. */
  lemma RateBoundIsReached(max: nat, window: int, k: nat)
    requires max >= 1 && window >= 2 && k >= 1
    ensures InOrder(Bursts(max, window, k))
    ensures GrantsIn(max, window, Bursts(max, window, k), window - 1, k * window) == (k + 1) * max - 1
  {
    SumGrows(k, window);
    SumIsProduct(k, window);
    SumIsProduct(k, max);
    BurstsInOrder(max, window, k);
    assert (k + 1) * max == k * max + max && k * max >= 0;
    BurstsServed(max, window, k, Sum(k, window), (k + 1) * max - 1);
  }

  // --------------------------------------------------------------------------------- a rolling window?

  /** What a rolling window would promise: no interval of one window length holds more than max grants. */
  ghost predicate Rolls(max: nat, window: int) {
    forall cs, from | InOrder(cs) :: GrantsIn(max, window, cs, from, window) <= max
  }

  /** At one instant a window grants at most max attempts, and no other window is open. */
  lemma OneInstant(max: nat, cs: seq<Command>, from: Time)
    requires InOrder(cs) && max >= 1
    ensures GrantsIn(max, 1, cs, from, 1) <= max
  {
    var s, now := Served(max, 1, cs), LastTime(cs);
    var g := Granted(s.answers);
    ServedSoundly(max, 1, cs);
    assert SoundIn(max, 1, s, now, GrantsFacet) && SoundIn(max, 1, s, now, OpeningsFacet);
    OneInstantApart(max, g, s.openings, now);
    SpacingBoundsCount(Times(g), max, from, 1);
  }

  lemma OneInstantApart(max: nat, g: seq<Answer>, openings: seq<Time>, now: Time)
    requires GrantsTrue(max, 1, g, openings, now) && WindowsSpaced(openings, 1)
    ensures Ascending(Times(g)) && Spaced(Times(g), max, 1)
  {
    forall i, j | 0 <= i < |g| && 0 <= j < |g| && j == i + max ensures g[j].at - g[i].at >= 1 {
      assert g[i].window < g[j].window;
      MonotoneOpenings(openings, 1, g[i].window + 1, g[j].window);
    }
  }

  /** The counter behaves as a rolling window exactly when that is trivial: a quota of at most 1, or one tick long. */
  lemma RollsExactly(max: nat, window: int)
    ensures Rolls(max, window) <==> max <= 1 || window <= 1
  {
    if max <= 1 || window <= 1 {
      forall cs, from | InOrder(cs) ensures GrantsIn(max, window, cs, from, window) <= max {
        if max <= 1 || window < 1 {
          assert 1 * window == window;
          RateBound(max, window, cs, from, 1);
          EmptyWhenNegative(max, window, cs, from);
        } else {
          OneInstant(max, cs, from);
        }
      }
    } else {
      RateBoundIsReached(max, window, 1);
      assert GrantsIn(max, window, Bursts(max, window, 1), window - 1, window) > max;
    }
  }

  lemma EmptyWhenNegative(max: nat, window: int, cs: seq<Command>, from: Time)
    ensures window < 1 ==> GrantsIn(max, window, cs, from, window) == 0
  {
    if window < 1 {
      EmptyInterval(Times(Granted(Served(max, window, cs).answers)), from, from + window);
    }
  }
}
