/** Small shared vocabulary: options, finite-set arithmetic, and the counting argument used by every rate bound. */
module Prelude {

  datatype Option<+T> = None | Some(value: T)

  /** The larger of two numbers. */
  function Max(a: int, b: int): int {
    if a < b then b else a
  }

  /**
   * The longest stretch of failures that does not trip a limit of th when up to m overlapping callers each decide by a
   * count they read before: those that have read a count below the limit go on counting after it is reached.
   */
  function Stretch(th: int, m: nat): nat
    requires th >= 1 && m >= 1
  {
    if th == 1 then 0 else th + m - 2
  }

  /** The most failures until all callers that had read an old count are through: th itself when m is 1. */
  function PerLock(th: int, m: nat): (n: nat)
    requires th >= 1 && m >= 1
    ensures n == Stretch(th, m) + m
  {
    if th == 1 then m else th + 2 * (m - 1)
  }

  /** The largest element of a finite set of naturals, 0 when there is none (SQL's COALESCE(MAX(..), 0)). */
  ghost function MaxOf(s: set<nat>): (m: nat)
    ensures forall x | x in s :: x <= m
    ensures s == {} ==> m == 0
    ensures s != {} ==> m in s
  {
    if s == {} then 0
    else
      var x :| x in s;
      var rest := MaxOf(s - {x});
      assert forall y | y in s :: y == x || y in s - {x};
      Max(x, rest)
  }

  /** A one-to-one map from a onto b makes them equally large. */
  lemma {:induction false} BijectionKeepsSize<A, B>(a: set<A>, b: set<B>, f: map<A, B>)
    requires f.Keys == a
    requires forall x | x in a :: f[x] in b
    requires forall x, y | x in a && y in a && f[x] == f[y] :: x == y
    requires forall z | z in b :: exists x :: x in a && f[x] == z
    ensures |a| == |b|
    decreases |a|
  {
    if a == {} {
      assert b == {};
    } else {
      var x :| x in a;
      var a', b' := a - {x}, b - {f[x]};
      var f' := map y | y in a' :: f[y];
      forall z | z in b' ensures exists y :: y in a' && f'[y] == z {
        var y :| y in a && f[y] == z;
        assert y in a' && f'[y] == z;
      }
      BijectionKeepsSize(a', b', f');
    }
  }

  lemma {:induction false} SubsetIsNoLarger<A>(a: set<A>, b: set<A>)
    requires a <= b
    ensures |a| <= |b|
    decreases |a|
  {
    if a != {} {
      var x :| x in a;
      SubsetIsNoLarger(a - {x}, b - {x});
    }
  }

  lemma ProperSubsetIsSmaller<A>(a: set<A>, b: set<A>)
    requires a <= b && a != b
    ensures |a| < |b|
  {
    var x :| x in b && x !in a;
    SubsetIsNoLarger(a, b - {x});
  }

  lemma {:induction false} ImageIsNoLarger<A, B>(a: set<A>, f: map<A, B>, b: set<B>)
    requires f.Keys == a
    requires forall z | z in b :: exists x :: x in a && f[x] == z
    ensures |b| <= |a|
    decreases |a|
  {
    if a != {} {
      var x :| x in a;
      var a', b' := a - {x}, b - {f[x]};
      var f' := map y | y in a' :: f[y];
      forall z | z in b' ensures exists y :: y in a' && f'[y] == z {
        var y :| y in a && f[y] == z;
        assert y in a' && f'[y] == z;
      }
      ImageIsNoLarger(a', f', b');
    } else {
      assert b == {};
    }
  }

  /** k * x as a sum. */
  function Sum(k: nat, x: int): int {
    if k == 0 then 0 else Sum(k - 1, x) + x
  }

  lemma {:induction false} SumIsProduct(k: nat, x: int)
    ensures Sum(k, x) == k * x
  {
    if k > 0 {
      SumIsProduct(k - 1, x);
      assert k * x == (k - 1) * x + x;
    }
  }

  ghost predicate Distinct<A>(s: seq<A>) {
    forall i, j | 0 <= i < j < |s| :: s[i] != s[j]
  }

  lemma LastIsNew<A>(s: seq<A>)
    requires Distinct(s) && s != []
    ensures var before := s[..|s| - 1];
            Distinct(before) && s[|s| - 1] !in before && forall x :: x in s <==> x in before || x == s[|s| - 1]
  {
  }

  function Elements<A>(s: seq<A>): set<A> {
    set x | x in s
  }

  lemma DropOneMore<A, B>(m: map<A, B>, s: seq<A>)
    requires Distinct(s) && s != []
    ensures m - Elements(s[..|s| - 1]) - {s[|s| - 1]} == m - Elements(s)
  {
    LastIsNew(s);
    assert Elements(s) == Elements(s[..|s| - 1]) + {s[|s| - 1]};
  }

  lemma AddedThenDropped<A, B>(a: map<A, B>, b: map<A, B>, s: seq<A>)
    requires b.Keys == a.Keys + Elements(s) && a.Keys !! Elements(s) && forall x | x in a :: b[x] == a[x]
    ensures b - Elements(s) == a
  {
  }

  /** How many of the given times lie in the half-open interval [lo, hi). */
  function CountIn(times: seq<int>, lo: int, hi: int): nat {
    if times == [] then 0
    else
      var last := times[|times| - 1];
      CountIn(times[..|times| - 1], lo, hi) + (if lo <= last < hi then 1 else 0)
  }

  ghost predicate Ascending(times: seq<int>) {
    forall i, j | 0 <= i < j < |times| :: times[i] <= times[j]
  }

  lemma {:induction false} CountAtMostLength(times: seq<int>, lo: int, hi: int)
    ensures CountIn(times, lo, hi) <= |times|
  {
    if times != [] {
      CountAtMostLength(times[..|times| - 1], lo, hi);
    }
  }

  lemma {:induction false} CountSplits(a: seq<int>, b: seq<int>, lo: int, hi: int)
    ensures CountIn(a + b, lo, hi) == CountIn(a, lo, hi) + CountIn(b, lo, hi)
  {
    if b == [] {
      assert a + b == a;
    } else {
      var front := b[..|b| - 1];
      assert (a + b)[..|a + b| - 1] == a + front;
      CountSplits(a, front, lo, hi);
    }
  }

  lemma {:induction false} EmptyInterval(times: seq<int>, lo: int, hi: int)
    requires hi <= lo
    ensures CountIn(times, lo, hi) == 0
  {
    if times != [] {
      EmptyInterval(times[..|times| - 1], lo, hi);
    }
  }

  lemma {:induction false} NothingBelow(times: seq<int>, lo: int, hi: int)
    requires forall i | 0 <= i < |times| :: times[i] < lo
    ensures CountIn(times, lo, hi) == 0
  {
    if times != [] {
      NothingBelow(times[..|times| - 1], lo, hi);
    }
  }

  /** Any event comes at least `span` after the one m places before it. */
  ghost predicate Spaced(times: seq<int>, m: nat, span: int) {
    forall i, j | 0 <= i < |times| && 0 <= j < |times| && j == i + m :: times[j] - times[i] >= span
  }

  /** Once an event falls inside the interval, all but the last m events came before it. */
  lemma EarlyOnesFallOutside(times: seq<int>, m: nat, lo: int, span: int)
    requires Ascending(times) && Spaced(times, m, span)
    requires m < |times| && times[|times| - 1] < lo + span
    ensures CountIn(times, lo, lo + span) <= m
  {
    var k := |times| - 1 - m;
    assert times[|times| - 1] - times[k] >= span;
    OnlyLaterOnesCount(times, k + 1, lo, lo + span);
  }

  lemma OnlyLaterOnesCount(times: seq<int>, n: nat, lo: int, hi: int)
    requires Ascending(times) && 0 < n <= |times| && times[n - 1] < lo
    ensures CountIn(times, lo, hi) <= |times| - n
  {
    var early, recent := times[..n], times[n..];
    forall i | 0 <= i < n ensures early[i] < lo {
      assert i == n - 1 || times[i] <= times[n - 1];
    }
    NothingBelow(early, lo, hi);
    CountAtMostLength(recent, lo, hi);
    assert times == early + recent;
    CountSplits(early, recent, lo, hi);
  }

  /** If any m consecutive events take at least `span`, an interval of that length holds at most m of them. */
  lemma {:induction false} SpacingBoundsCount(times: seq<int>, m: nat, lo: int, span: int)
    requires Ascending(times) && Spaced(times, m, span)
    ensures CountIn(times, lo, lo + span) <= m
  {
    if |times| <= m {
      CountAtMostLength(times, lo, lo + span);
    } else if times[|times| - 1] < lo + span {
      EarlyOnesFallOutside(times, m, lo, span);
    } else {
      var front := times[..|times| - 1];
      assert Spaced(front, m, span) by {
        forall i, j | 0 <= i < |front| && 0 <= j < |front| && j == i + m ensures front[j] - front[i] >= span {
          assert times[j] - times[i] >= span;
        }
      }
      SpacingBoundsCount(front, m, lo, span);
    }
  }
}
