/** Whole-run theorems about one-time passcodes. */
module Passcodes {
  import opened Prelude
  import opened Schema
  import opened Otps
  import opened System
  import opened Invariants
  import opened Steps
  import opened Frames
  import opened Lifecycle

  /** The passcode row this action accepts, if any. */
  ghost function AcceptedBy(cfg: Config, s: State, a: Action): Option<Id> {
    if a.VerifyOtp? then
      var end := Verified(cfg, s.t, s.clock, a.u, a.code, a.fault).1;
      if end.Accepted? then Some(end.otpId) else None
    else None
  }

  /** In every reachable state: exactly which submissions are accepted; an accepted row is its user's newest. */
  lemma AcceptanceExactly(cfg: Config, start: Time, run: seq<Action>, u: Id, code: string, fault: int, o: Id)
    ensures var s := At(cfg, start, run);
            AcceptedBy(cfg, s, VerifyOtp(u, code, fault)) == Some(o) <==>
            && Eligible(s.t, u) && ActiveOtp(s.t, u, o) && s.clock <= s.t.otps[o].expiresAt
            && cfg.hmac(code) == s.t.otps[o].codeHash && !(0 <= fault < 2)
    ensures var s := At(cfg, start, run);
            AcceptedBy(cfg, s, VerifyOtp(u, code, fault)) == Some(o) ==>
            s.past.born.Keys == s.t.otps.Keys && o in s.t.otps && Newest(s.t.otps, s.past.born, o)
  {
    Reachable(cfg, start, run);
    var s := At(cfg, start, run);
    assert PartOk(s.t, OtpsPart) && Holds(cfg, s, OtpsFact);
    if ActiveOtp(s.t, u, o) {
      assert OtpOf(s.t, u) == Some(o);
    }
  }

  /** A row that has been used, invalidated or superseded is never accepted again, however later calls interleave. */
  lemma SupersededNeverAccepted(cfg: Config, start: Time, run: seq<Action>, more: seq<Action>, a: Action, o: Id)
    requires var s := At(cfg, start, run);
             && o in s.t.otps
             && (s.t.otps[o].invalidatedAt.Some?
                 || exists p :: p in s.t.otps && s.t.otps[p].userId == s.t.otps[o].userId
                             && p in s.past.born && o in s.past.born && s.past.born[o] < s.past.born[p])
    ensures AcceptedBy(cfg, At(cfg, start, run + more), a) != Some(o)
  {
    Later(cfg, start, run, more);
    var s, s' := At(cfg, start, run), At(cfg, start, run + more);
    assert Holds(cfg, s, OtpsFact);
    assert s.t.otps[o].invalidatedAt.Some?;
    assert TableEvolves(s.t, s'.t, OtpTable);
  }

  /** Each row is accepted at most once in a whole run. */
  lemma AcceptedAtMostOnce(cfg: Config, start: Time, run: seq<Action>, i: nat, j: nat, o: Id)
    requires i < j < |run|
    requires AcceptedBy(cfg, At(cfg, start, run[..i]), run[i]) == Some(o)
    ensures AcceptedBy(cfg, At(cfg, start, run[..j]), run[j]) != Some(o)
  {
    var before := At(cfg, start, run[..i]);
    Reachable(cfg, start, run[..i]);
    assert run[..i + 1][..i] == run[..i];
    assert At(cfg, start, run[..i + 1]) == Step(cfg, before, run[i]);
    assert At(cfg, start, run[..i + 1]).t.otps[o].invalidatedAt.Some?;
    assert run[..j] == run[..i + 1] + run[i + 1..j];
    SupersededNeverAccepted(cfg, start, run[..i + 1], run[i + 1..j], run[j], o);
  }

  ghost function ActiveOtps(t: Tables, u: Id): set<Id> {
    set o | o in t.otps && t.otps[o].userId == u && t.otps[o].invalidatedAt.None?
  }

  /** At most one active passcode per user, even with a pause after every statement of the issue. */
  lemma OneActiveOtp(cfg: Config, start: Time, run: seq<Action>, u: Id)
    ensures |ActiveOtps(At(cfg, start, run).t, u)| <= 1
  {
    Reachable(cfg, start, run);
    assert PartOk(At(cfg, start, run).t, OtpsPart);
    AtMostOne(ActiveOtps(At(cfg, start, run).t, u));
  }

  // ---------------------------------------------------------------------------------------- attempt sequences

  /** The user's rows are numbered 1..n without gap or repetition, and an active row carries n. */
  ghost predicate Dense(otps: map<Id, Otp>, u: Id, n: nat) {
    && (forall o | o in otps && otps[o].userId == u :: 1 <= otps[o].sequence <= n)
    && (forall o, p | o in otps && p in otps && otps[o].userId == u && otps[p].userId == u && o != p ::
          otps[o].sequence != otps[p].sequence)
    && (forall k | 1 <= k <= n :: Numbered(otps, u, k))
    && (forall o | o in otps && otps[o].userId == u && otps[o].invalidatedAt.None? :: otps[o].sequence == n)
  }

  ghost predicate Numbered(otps: map<Id, Otp>, u: Id, k: int) {
    exists o :: o in otps && otps[o].userId == u && otps[o].sequence == k
  }

  lemma DenseIsLast(t: Tables, u: Id, n: nat)
    requires Dense(t.otps, u, n)
    ensures LastSequence(t, u) == n
  {
    if n >= 1 {
      assert Numbered(t.otps, u, n);
    }
  }

  lemma DenseSurvives(a: map<Id, Otp>, b: map<Id, Otp>, u: Id, n: nat)
    requires Dense(a, u, n) && OtpsEvolve(a, b) && a.Keys == b.Keys
    ensures Dense(b, u, n)
  {
    forall k | 1 <= k <= n ensures Numbered(b, u, k) {
      assert Numbered(a, u, k);
      var o :| o in a && a[o].userId == u && a[o].sequence == k;
      assert o in b && b[o].userId == u && b[o].sequence == k;
    }
  }

  lemma DenseGrows(a: map<Id, Otp>, u: Id, n: nat, id: Id, row: Otp)
    requires Dense(a, u, n) && NoActiveOtp(a, u) && id !in a && row.userId == u && row.sequence == n + 1
    ensures Dense(a[id := row], u, n + 1)
  {
    var b := a[id := row];
    forall k | 1 <= k <= n + 1 ensures Numbered(b, u, k) {
      if k == n + 1 {
        assert b[id].sequence == k;
      } else {
        assert Numbered(a, u, k);
        var o :| o in a && a[o].userId == u && a[o].sequence == k;
        assert o in b && b[o].userId == u && b[o].sequence == k;
      }
    }
  }

  lemma DenseForOthers(a: map<Id, Otp>, u: Id, n: nat, id: Id, row: Otp)
    requires Dense(a, u, n) && id !in a && row.userId != u
    ensures Dense(a[id := row], u, n)
  {
    var b := a[id := row];
    forall k | 1 <= k <= n ensures Numbered(b, u, k) {
      assert Numbered(a, u, k);
      var o :| o in a && a[o].userId == u && a[o].sequence == k;
      assert o in b && b[o].userId == u && b[o].sequence == k;
    }
  }

  // ----------------------------------------------------------------- which steps store a row, and of whom

  predicate IsNumbered(s: State, c: nat) {
    c in s.calls && s.calls[c].NumberedCall?
  }

  /** The action stores a row of u in one segment. */
  predicate StoresAtOnce(s: State, a: Action, u: Id) {
    && a.IssueStore? && a.call in s.calls && s.calls[a.call].IssueCall? && s.calls[a.call].userId == u
    && a.id !in s.t.otps && u in s.t.users
  }

  /** The action stores a row of u that was numbered in an earlier segment. */
  ghost predicate StoresNumbered(s: State, a: Action, u: Id) {
    && a.IssueInsert? && IsNumbered(s, a.call) && s.calls[a.call].row.userId == u
    && InsertOk(s, s.calls[a.call])
  }

  ghost function RowsOf(otps: map<Id, Otp>, u: Id): set<Id> {
    set o | o in otps && otps[o].userId == u
  }

  ghost function OtpsOf(t: Tables, u: Id): set<Id> {
    RowsOf(t.otps, u)
  }

  lemma RowsStay(a: Tables, b: Tables, u: Id)
    requires OtpsEvolve(a.otps, b.otps)
    ensures OtpsOf(a, u) <= OtpsOf(b, u)
    ensures a.otps.Keys == b.otps.Keys ==> OtpsOf(a, u) == OtpsOf(b, u)
  {
  }

  lemma StoredAtOnce(cfg: Config, s: State, call: nat, code: string, id: Id)
    requires call in s.calls && s.calls[call].IssueCall?
    ensures var c, s' := s.calls[call], StoreIssue(cfg, s, call, code, id);
            var cut := Cleared(s.t, c.userId, s.clock);
            && cut.otps.Keys == s.t.otps.Keys
            && s'.t.otps == if id !in s.t.otps && c.userId in s.t.users
                            then cut.otps[id := NextRow(cfg, cut, s.clock, c.userId, c.email, code)] else cut.otps
  {
  }

  /** The rows of u once a row of `owner` has been added. */
  lemma RowAdded(a: map<Id, Otp>, b: map<Id, Otp>, id: Id, row: Otp, u: Id)
    requires OtpsEvolve(a, b) && a.Keys == b.Keys && id !in a
    ensures RowsOf(b[id := row], u) == RowsOf(a, u) + (if row.userId == u then {id} else {})
  {
  }

  lemma StoreGrows(cfg: Config, s: State, call: nat, code: string, id: Id, u: Id)
    requires call in s.calls && s.calls[call].IssueCall?
    ensures OtpsOf(StoreIssue(cfg, s, call, code, id).t, u) != OtpsOf(s.t, u) <==>
              s.calls[call].userId == u && id !in s.t.otps && u in s.t.users
  {
    var c := s.calls[call];
    var cut := Cleared(s.t, c.userId, s.clock);
    StoredAtOnce(cfg, s, call, code, id);
    if id !in s.t.otps {
      RowAdded(s.t.otps, cut.otps, id, NextRow(cfg, cut, s.clock, c.userId, c.email, code), u);
    }
  }

  lemma InsertGrows(cfg: Config, s: State, call: nat, u: Id)
    requires Inv(cfg, s) && IsNumbered(s, call)
    ensures OtpsOf(InsertIssue(s, call).t, u) != OtpsOf(s.t, u) <==>
              s.calls[call].row.userId == u && InsertOk(s, s.calls[call])
  {
    var c := s.calls[call];
    assert Holds(cfg, s, CallsFact);
    assert CallHolds(s.t, c);
    if InsertOk(s, c) {
      InsertStores(s, call);
      RowAdded(s.t.otps, s.t.otps, c.id, c.row, u);
    } else {
      InsertRefused(s, call);
    }
  }

  /** In a good state, the rows of u grow exactly when the action stores a row of u. */
  lemma RowsGrowExactly(cfg: Config, s: State, a: Action, u: Id)
    requires Inv(cfg, s)
    ensures OtpsOf(Step(cfg, s, a).t, u) != OtpsOf(s.t, u) <==> StoresAtOnce(s, a, u) || StoresNumbered(s, a, u)
  {
    if a.IssueStore? {
      if a.call in s.calls && s.calls[a.call].IssueCall? {
        StoreGrows(cfg, s, a.call, a.code, a.id, u);
      }
    } else if a.IssueInsert? {
      if IsNumbered(s, a.call) {
        InsertGrows(cfg, s, a.call, u);
      }
    } else {
      StepGood(cfg, s, a);
      assert TableEvolves(s.t, Step(cfg, s, a).t, OtpTable);
      OthersAddNoOtp(cfg, s, a);
      RowsStay(s.t, Step(cfg, s, a).t, u);
    }
  }

  // -------------------------------------------------------------------------- dense numbering, step by step

  lemma DenseAfterStep(cfg: Config, s: State, a: Action, u: Id)
    requires Inv(cfg, s) && Dense(s.t.otps, u, LastSequence(s.t, u)) && !StoresNumbered(s, a, u)
    ensures var t' := Step(cfg, s, a).t; Dense(t'.otps, u, LastSequence(t', u))
  {
    var n := LastSequence(s.t, u);
    var s' := Step(cfg, s, a);
    StepGood(cfg, s, a);
    assert TableEvolves(s.t, s'.t, OtpTable);
    if s'.t.otps.Keys == s.t.otps.Keys {
      DenseSurvives(s.t.otps, s'.t.otps, u, n);
      DenseIsLast(s'.t, u, n);
    } else {
      if !a.IssueStore? && !a.IssueInsert? {
        OthersAddNoOtp(cfg, s, a);
      }
      if a.IssueStore? {
        DenseAfterIssue(cfg, s, a.call, a.code, a.id, u, n);
      } else {
        DenseAfterInsert(cfg, s, a, u, n);
      }
    }
  }

  lemma DenseAfterInsert(cfg: Config, s: State, a: Action, u: Id, n: nat)
    requires Inv(cfg, s) && Dense(s.t.otps, u, n) && a.IssueInsert? && !StoresNumbered(s, a, u)
    requires Step(cfg, s, a).t.otps.Keys != s.t.otps.Keys
    ensures var t' := Step(cfg, s, a).t; Dense(t'.otps, u, LastSequence(t', u))
  {
    var c := s.calls[a.call];
    assert Holds(cfg, s, CallsFact);
    assert CallHolds(s.t, c);
    if InsertOk(s, c) {
      InsertStores(s, a.call);
      DenseForOthers(s.t.otps, u, n, c.id, c.row);
      DenseIsLast(Step(cfg, s, a).t, u, n);
    } else {
      InsertRefused(s, a.call);
    }
  }

  lemma DenseAfterIssue(cfg: Config, s: State, call: nat, code: string, id: Id, u: Id, n: nat)
    requires Inv(cfg, s) && Dense(s.t.otps, u, n) && n == LastSequence(s.t, u)
    requires call in s.calls && s.calls[call].IssueCall?
    ensures var t' := StoreIssue(cfg, s, call, code, id).t; Dense(t'.otps, u, LastSequence(t', u))
  {
    var c := s.calls[call];
    var cut := Cleared(s.t, c.userId, s.clock);
    var t' := StoreIssue(cfg, s, call, code, id).t;
    CutKeepsNumbers(s.t.otps, c.userId, s.clock, u, n);
    DenseIsLast(cut, u, n);
    StoredAtOnce(cfg, s, call, code, id);
    if id in s.t.otps || c.userId !in s.t.users {
      DenseIsLast(t', u, n);
    } else if u == c.userId {
      DenseGrows(cut.otps, u, n, id, NextRow(cfg, cut, s.clock, c.userId, c.email, code));
      DenseIsLast(t', u, n + 1);
    } else {
      DenseForOthers(cut.otps, u, n, id, NextRow(cfg, cut, s.clock, c.userId, c.email, code));
      DenseIsLast(t', u, n);
    }
  }

  lemma CutKeepsNumbers(otps: map<Id, Otp>, v: Id, at: Time, u: Id, n: nat)
    requires Dense(otps, u, n)
    ensures Dense(OtpsCut(otps, v, at), u, n) && (u == v ==> NoActiveOtp(OtpsCut(otps, v, at), u))
  {
    assert OtpsCut(otps, v, at).Keys == otps.Keys;
    DenseSurvives(otps, OtpsCut(otps, v, at), u, n);
  }

  /** Two rows of u carry one number. */
  ghost predicate Repeats(otps: map<Id, Otp>, u: Id) {
    exists o, p :: o in otps && p in otps && o != p && otps[o].userId == u && otps[p].userId == u
                   && otps[o].sequence == otps[p].sequence
  }

  lemma RepetitionStays(a: map<Id, Otp>, b: map<Id, Otp>, u: Id)
    requires Repeats(a, u) && OtpsEvolve(a, b)
    ensures Repeats(b, u)
  {
    var o, p :| o in a && p in a && o != p && a[o].userId == u && a[p].userId == u && a[o].sequence == a[p].sequence;
    assert o in b && p in b && b[o].sequence == b[p].sequence;
  }

  lemma RepetitionStaysNext(cfg: Config, s: State, a: Action, u: Id)
    requires Inv(cfg, s) && Repeats(s.t.otps, u)
    ensures Repeats(Step(cfg, s, a).t.otps, u)
  {
    StepGood(cfg, s, a);
    assert TableEvolves(s.t, Step(cfg, s, a).t, OtpTable);
    RepetitionStays(s.t.otps, Step(cfg, s, a).t.otps, u);
  }

  /** Storing a row numbered k among rows 1..n keeps them dense if k is n + 1 and repeats a number if k is not. */
  lemma InsertKeepsDenseExactly(a: map<Id, Otp>, u: Id, n: nat, id: Id, row: Otp)
    requires Dense(a, u, n) && NoActiveOtp(a, u) && id !in a && row.userId == u && 1 <= row.sequence <= n + 1
    ensures row.sequence == n + 1 ==> Dense(a[id := row], u, n + 1)
    ensures row.sequence != n + 1 ==> Repeats(a[id := row], u)
  {
    if row.sequence == n + 1 {
      DenseGrows(a, u, n, id, row);
    } else {
      assert Numbered(a, u, row.sequence);
      var o :| o in a && a[o].userId == u && a[o].sequence == row.sequence;
      var b := a[id := row];
      assert o in b && id in b && o != id && b[o].sequence == b[id].sequence;
    }
  }

  // --------------------------------------------------------------------------- when was a call numbered?

  /** Action j numbered call c, and the call has kept its row since. */
  ghost predicate NumberedAt(cfg: Config, start: Time, run: seq<Action>, c: nat, j: nat) {
    && j < |run| && run[j].IssueNumber? && run[j].call == c
    && c in At(cfg, start, run[..j]).calls && At(cfg, start, run[..j]).calls[c].ClearedCall?
    && forall i | j < i <= |run| :: IsNumbered(At(cfg, start, run[..i]), c)
  }

  lemma {:induction false} NumberedSomewhere(cfg: Config, start: Time, run: seq<Action>, c: nat)
    requires IsNumbered(At(cfg, start, run), c)
    ensures exists j: nat :: NumberedAt(cfg, start, run, c, j)
  {
    var n := |run| - 1;
    var before, a := run[..n], run[n];
    var s := At(cfg, start, before);
    CallsEnter(cfg, s, a);
    if c in s.calls && s.calls[c] == At(cfg, start, run).calls[c] {
      NumberedSomewhere(cfg, start, before, c);
      var j: nat :| NumberedAt(cfg, start, before, c, j);
      NumberedStill(cfg, start, run, c, j);
    } else {
      assert run[..n + 1] == run;
      assert NumberedAt(cfg, start, run, c, n);
    }
  }

  ghost function WhenNumbered(cfg: Config, start: Time, run: seq<Action>, c: nat): (j: nat)
    requires IsNumbered(At(cfg, start, run), c)
    ensures NumberedAt(cfg, start, run, c, j)
  {
    NumberedSomewhere(cfg, start, run, c);
    var j: nat :| NumberedAt(cfg, start, run, c, j); j
  }

  lemma NumberedStill(cfg: Config, start: Time, run: seq<Action>, c: nat, j: nat)
    requires run != [] && NumberedAt(cfg, start, run[..|run| - 1], c, j) && IsNumbered(At(cfg, start, run), c)
    ensures NumberedAt(cfg, start, run, c, j)
  {
    var before := run[..|run| - 1];
    assert before[..j] == run[..j];
    forall i | j < i <= |run| ensures IsNumbered(At(cfg, start, run[..i]), c) {
      if i == |run| {
        assert run[..i] == run;
      } else {
        assert before[..i] == run[..i];
      }
    }
  }

  lemma RowKept(cfg: Config, s: State, a: Action, c: nat)
    requires IsNumbered(s, c) && IsNumbered(Step(cfg, s, a), c)
    ensures Step(cfg, s, a).calls[c] == s.calls[c]
  {
    CallsEnter(cfg, s, a);
  }

  lemma RowGiven(cfg: Config, s: State, a: Action, c: nat)
    requires c in s.calls && s.calls[c].ClearedCall? && IsNumbered(Step(cfg, s, a), c)
    ensures var row := Step(cfg, s, a).calls[c].row; row.sequence == LastSequence(s.t, row.userId) + 1
  {
    CallsEnter(cfg, s, a);
  }

  /** The row a call holds is the one it was given when it was numbered. */
  lemma {:induction false} RowSinceNumbered(cfg: Config, start: Time, run: seq<Action>, c: nat, j: nat)
    requires NumberedAt(cfg, start, run, c, j)
    ensures IsNumbered(At(cfg, start, run), c)
    ensures var row := At(cfg, start, run).calls[c].row;
            row.sequence == LastSequence(At(cfg, start, run[..j]).t, row.userId) + 1
  {
    var n := |run| - 1;
    var before, a := run[..n], run[n];
    assert run[..|run|] == run;
    if j == n {
      RowGiven(cfg, At(cfg, start, before), a, c);
    } else {
      assert before[..j] == run[..j];
      forall i | j < i <= n ensures IsNumbered(At(cfg, start, before[..i]), c) {
        assert before[..i] == run[..i];
      }
      RowSinceNumbered(cfg, start, before, c, j);
      assert before[..n] == before;
      RowKept(cfg, At(cfg, start, before), a, c);
    }
  }

  // ----------------------------------------------------------------------------------- exactly when 1..n

  /** No row of its user has been stored since call c was numbered. */
  ghost predicate NumberFresh(cfg: Config, start: Time, run: seq<Action>, c: nat, u: Id) {
    exists j: nat :: NumberedAt(cfg, start, run, c, j)
                && OtpsOf(At(cfg, start, run[..j]).t, u) == OtpsOf(At(cfg, start, run).t, u)
  }

  /** Every row of u that was stored in a segment of its own was stored with a fresh number. */
  ghost predicate Uninterrupted(cfg: Config, start: Time, run: seq<Action>, u: Id) {
    forall i | 0 <= i < |run| && StoresNumbered(At(cfg, start, run[..i]), run[i], u) ::
      NumberFresh(cfg, start, run[..i], run[i].call, u)
  }

  lemma UninterruptedSoFar(cfg: Config, start: Time, run: seq<Action>, u: Id, n: nat)
    requires n <= |run| && Uninterrupted(cfg, start, run, u)
    ensures Uninterrupted(cfg, start, run[..n], u)
  {
    forall i | 0 <= i < n && StoresNumbered(At(cfg, start, run[..n][..i]), run[..n][i], u)
      ensures NumberFresh(cfg, start, run[..n][..i], run[..n][i].call, u)
    {
      assert run[..n][..i] == run[..i];
    }
  }

  /** One more action: what was uninterrupted stays so exactly if the action does not store a stale number. */
  lemma UninterruptedNext(cfg: Config, start: Time, run: seq<Action>, u: Id)
    requires run != []
    ensures var n := |run| - 1;
            Uninterrupted(cfg, start, run, u) <==>
            && Uninterrupted(cfg, start, run[..n], u)
            && (StoresNumbered(At(cfg, start, run[..n]), run[n], u) ==>
                  NumberFresh(cfg, start, run[..n], run[n].call, u))
  {
    var n := |run| - 1;
    if Uninterrupted(cfg, start, run, u) {
      UninterruptedSoFar(cfg, start, run, u, n);
    } else {
      var i: nat :| i < |run| && StoresNumbered(At(cfg, start, run[..i]), run[i], u)
               && !NumberFresh(cfg, start, run[..i], run[i].call, u);
      if i < n {
        assert run[..n][..i] == run[..i];
      }
    }
  }

  lemma SameRowsSameLast(a: Tables, b: Tables, u: Id)
    requires OtpsEvolve(a.otps, b.otps) && OtpsOf(a, u) == OtpsOf(b, u)
    ensures LastSequence(a, u) == LastSequence(b, u)
  {
    var n, m := LastSequence(a, u), LastSequence(b, u);
    if n > 0 {
      var o :| o in a.otps && a.otps[o].userId == u && a.otps[o].sequence == n;
      assert b.otps[o].sequence <= m;
    }
    if m > 0 {
      var o :| o in b.otps && b.otps[o].userId == u && b.otps[o].sequence == m;
      assert o in OtpsOf(b, u);
      assert a.otps[o].sequence <= n;
    }
  }

  function OneTo(n: nat): (s: set<nat>)
    ensures |s| == n && forall k: nat :: k in s <==> 1 <= k <= n
  {
    if n == 0 then {} else OneTo(n - 1) + {n}
  }

  ghost function NumbersOf(t: Tables, u: Id): set<nat> {
    set o | o in OtpsOf(t, u) :: t.otps[o].sequence
  }

  lemma EachNumberHasARow(t: Tables, u: Id, n: nat, k: nat)
    requires Dense(t.otps, u, n) && 1 <= k <= n
    ensures exists o: Id :: o in OtpsOf(t, u) && t.otps[o].sequence == k
  {
    assert Numbered(t.otps, u, k);
    var o :| o in t.otps && t.otps[o].userId == u && t.otps[o].sequence == k;
    assert o in OtpsOf(t, u);
  }

  lemma DenseNumbers(t: Tables, u: Id, n: nat)
    requires Dense(t.otps, u, n)
    ensures NumbersOf(t, u) == OneTo(n)
  {
    forall k | k in OneTo(n) ensures k in NumbersOf(t, u) {
      EachNumberHasARow(t, u, n, k);
    }
    forall k | k in NumbersOf(t, u) ensures k in OneTo(n) {}
  }

  lemma DenseCounts(t: Tables, u: Id, n: nat)
    requires Dense(t.otps, u, n)
    ensures |OtpsOf(t, u)| == n
  {
    var rows := OtpsOf(t, u);
    var f := map o | o in rows :: t.otps[o].sequence;
    forall k | k in OneTo(n) ensures exists o: Id :: o in rows && f[o] == k {
      EachNumberHasARow(t, u, n, k);
      var o :| o in rows && t.otps[o].sequence == k;
      assert f[o] == k;
    }
    BijectionKeepsSize(rows, OneTo(n), f);
  }

  lemma RowsSince(cfg: Config, start: Time, run: seq<Action>, j: nat)
    requires j <= |run|
    ensures OtpsEvolve(At(cfg, start, run[..j]).t.otps, At(cfg, start, run).t.otps)
  {
    assert run == run[..j] + run[j..];
    Later(cfg, start, run[..j], run[j..]);
    assert TableEvolves(At(cfg, start, run[..j]).t, At(cfg, start, run).t, OtpTable);
  }

  lemma MoreRowsHigherLast(a: Tables, b: Tables, u: Id)
    requires OtpsEvolve(a.otps, b.otps) && OtpsOf(a, u) != OtpsOf(b, u)
    requires Dense(a.otps, u, LastSequence(a, u)) && Dense(b.otps, u, LastSequence(b, u))
    ensures LastSequence(a, u) < LastSequence(b, u)
  {
    RowsStay(a, b, u);
    ProperSubsetIsSmaller(OtpsOf(a, u), OtpsOf(b, u));
    DenseCounts(a, u, LastSequence(a, u));
    DenseCounts(b, u, LastSequence(b, u));
  }

  /** If rows were stored since a call was numbered, its number is one of those in use. */
  lemma StaleNumberIsTaken(cfg: Config, start: Time, run: seq<Action>, u: Id, c: nat, j: nat)
    requires NumberedAt(cfg, start, run, c, j)
    requires IsNumbered(At(cfg, start, run), c) && At(cfg, start, run).calls[c].row.userId == u
    requires OtpsOf(At(cfg, start, run[..j]).t, u) != OtpsOf(At(cfg, start, run).t, u)
    requires var t := At(cfg, start, run[..j]).t; Dense(t.otps, u, LastSequence(t, u))
    requires var t := At(cfg, start, run).t; Dense(t.otps, u, LastSequence(t, u))
    ensures 1 <= At(cfg, start, run).calls[c].row.sequence <= LastSequence(At(cfg, start, run).t, u)
  {
    RowsSince(cfg, start, run, j);
    MoreRowsHigherLast(At(cfg, start, run[..j]).t, At(cfg, start, run).t, u);
    RowSinceNumbered(cfg, start, run, c, j);
  }

  /** A row stored with a stale number repeats one. */
  lemma StaleNumberRepeats(cfg: Config, start: Time, run: seq<Action>, u: Id, a: Action, j: nat)
    requires StoresNumbered(At(cfg, start, run), a, u) && NumberedAt(cfg, start, run, a.call, j)
    requires OtpsOf(At(cfg, start, run[..j]).t, u) != OtpsOf(At(cfg, start, run).t, u)
    requires var t := At(cfg, start, run[..j]).t; Dense(t.otps, u, LastSequence(t, u))
    requires var t := At(cfg, start, run).t; Dense(t.otps, u, LastSequence(t, u))
    ensures Repeats(Step(cfg, At(cfg, start, run), a).t.otps, u)
  {
    var s := At(cfg, start, run);
    StaleNumberIsTaken(cfg, start, run, u, a.call, j);
    var c := s.calls[a.call];
    InsertStores(s, a.call);
    InsertKeepsDenseExactly(s.t.otps, u, LastSequence(s.t, u), c.id, c.row);
  }

  lemma FreshNumberFollows(cfg: Config, start: Time, run: seq<Action>, u: Id, c: nat)
    requires IsNumbered(At(cfg, start, run), c) && At(cfg, start, run).calls[c].row.userId == u
    requires NumberFresh(cfg, start, run, c, u)
    ensures At(cfg, start, run).calls[c].row.sequence == LastSequence(At(cfg, start, run).t, u) + 1
  {
    var s := At(cfg, start, run);
    var j: nat :| NumberedAt(cfg, start, run, c, j) && OtpsOf(At(cfg, start, run[..j]).t, u) == OtpsOf(s.t, u);
    RowsSince(cfg, start, run, j);
    SameRowsSameLast(At(cfg, start, run[..j]).t, s.t, u);
    RowSinceNumbered(cfg, start, run, c, j);
  }

  lemma FreshNumberIsNext(cfg: Config, start: Time, run: seq<Action>, u: Id, a: Action)
    requires StoresNumbered(At(cfg, start, run), a, u) && NumberFresh(cfg, start, run, a.call, u)
    requires var t := At(cfg, start, run).t; Dense(t.otps, u, LastSequence(t, u))
    ensures var t := Step(cfg, At(cfg, start, run), a).t; Dense(t.otps, u, LastSequence(t, u))
  {
    var s := At(cfg, start, run);
    FreshNumberFollows(cfg, start, run, u, a.call);
    var c, n := s.calls[a.call], LastSequence(s.t, u);
    InsertStores(s, a.call);
    InsertKeepsDenseExactly(s.t.otps, u, n, c.id, c.row);
    DenseIsLast(Step(cfg, s, a).t, u, n + 1);
  }

  lemma DenseNext(cfg: Config, start: Time, run: seq<Action>, u: Id, a: Action)
    requires var t := At(cfg, start, run).t; Dense(t.otps, u, LastSequence(t, u))
    requires StoresNumbered(At(cfg, start, run), a, u) ==> NumberFresh(cfg, start, run, a.call, u)
    ensures var t := Step(cfg, At(cfg, start, run), a).t; Dense(t.otps, u, LastSequence(t, u))
  {
    Reachable(cfg, start, run);
    if StoresNumbered(At(cfg, start, run), a, u) {
      FreshNumberIsNext(cfg, start, run, u, a);
    } else {
      DenseAfterStep(cfg, At(cfg, start, run), a, u);
    }
  }

  /** Rows of an uninterrupted run are numbered 1..n; in any other run a number is repeated for good. */
  lemma {:induction false} DenseOrRepeated(cfg: Config, start: Time, run: seq<Action>, u: Id)
    ensures var t := At(cfg, start, run).t;
            if Uninterrupted(cfg, start, run, u) then Dense(t.otps, u, LastSequence(t, u)) else Repeats(t.otps, u)
    decreases |run|
  {
    if run == [] {
      DenseIsLast(EMPTY, u, 0);
    } else {
      var n := |run| - 1;
      var before, a := run[..n], run[n];
      var s := At(cfg, start, before);
      Reachable(cfg, start, before);
      DenseOrRepeated(cfg, start, before, u);
      UninterruptedNext(cfg, start, run, u);
      if !Uninterrupted(cfg, start, before, u) {
        RepetitionStaysNext(cfg, s, a, u);
      } else if StoresNumbered(s, a, u) ==> NumberFresh(cfg, start, before, a.call, u) {
        DenseNext(cfg, start, before, u, a);
      } else {
        var j := WhenNumbered(cfg, start, before, a.call);
        UninterruptedSoFar(cfg, start, before, u, j);
        DenseOrRepeated(cfg, start, before[..j], u);
        StaleNumberRepeats(cfg, start, before, u, a, j);
      }
    }
  }

  /** The sequences of u's n rows are exactly 1..n, and an active row carries n. */
  ghost predicate SequencesExact(t: Tables, u: Id) {
    && NumbersOf(t, u) == OneTo(|OtpsOf(t, u)|)
    && forall o | o in ActiveOtps(t, u) :: t.otps[o].sequence == |OtpsOf(t, u)|
  }

  lemma RepetitionIsInexact(t: Tables, u: Id)
    requires Repeats(t.otps, u)
    ensures !SequencesExact(t, u)
  {
    var o, p :| o in t.otps && p in t.otps && o != p && t.otps[o].userId == u && t.otps[p].userId == u
                && t.otps[o].sequence == t.otps[p].sequence;
    var rows := OtpsOf(t, u);
    assert o in rows && p in rows;
    var numbers := set r | r in rows - {o} :: t.otps[r].sequence;
    forall k | k in NumbersOf(t, u) ensures k in numbers {
      var r :| r in rows && t.otps[r].sequence == k;
      assert (if r == o then p else r) in rows - {o};
    }
    ImageIsNoLarger(rows - {o}, map r | r in rows - {o} :: t.otps[r].sequence, numbers);
    SubsetIsNoLarger(NumbersOf(t, u), numbers);
  }

  /**
   * Exactly when a user's attempt sequences are 1..n for the n rows issued: when every issue that paused between
   * numbering and storing found no row of that user stored in between.
   */
  lemma SequencesAreExact(cfg: Config, start: Time, run: seq<Action>, u: Id)
    ensures SequencesExact(At(cfg, start, run).t, u) <==> Uninterrupted(cfg, start, run, u)
  {
    var t := At(cfg, start, run).t;
    DenseOrRepeated(cfg, start, run, u);
    if Uninterrupted(cfg, start, run, u) {
      DenseCounts(t, u, LastSequence(t, u));
      DenseNumbers(t, u, LastSequence(t, u));
    } else {
      RepetitionIsInexact(t, u);
    }
  }

  /** Where the numbering is exact, storing a row numbered earlier keeps it exact if and only if the number is fresh. */
  lemma InsertKeepsNumberingExactly(cfg: Config, start: Time, run: seq<Action>, u: Id, a: Action)
    requires SequencesExact(At(cfg, start, run).t, u) && StoresNumbered(At(cfg, start, run), a, u)
    ensures SequencesExact(Step(cfg, At(cfg, start, run), a).t, u) <==> NumberFresh(cfg, start, run, a.call, u)
  {
    assert (run + [a])[..|run|] == run;
    SequencesAreExact(cfg, start, run, u);
    SequencesAreExact(cfg, start, run + [a], u);
    UninterruptedNext(cfg, start, run + [a], u);
  }
}
