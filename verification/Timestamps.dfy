/**
 * The text in which every timestamp column is stored: the UTC millisecond form of section 21.4.1.32 of ECMA-262.
 * SQL compares these strings; the services compare the times. For years 0 to 9999 the two orders are the same.
 */
module Timestamps {
  import opened Prelude
  import opened Codes
  import opened Schema

  // ---------------------------------------------------------------------------------- order of texts

  /** The order in which the database compares two strings. */
  predicate TextLess(a: string, b: string) {
    if b == [] then false
    else if a == [] then true
    else a[0] < b[0] || (a[0] == b[0] && TextLess(a[1..], b[1..]))
  }

  lemma {:induction false} TextOrderStrict(a: string, b: string)
    ensures !(TextLess(a, b) && TextLess(b, a)) && !TextLess(a, a)
  {
    if a != [] {
      TextOrderStrict(a[1..], if b == [] then [] else b[1..]);
    }
  }

  /** Comparing texts part by part, when the first parts are equally long. */
  lemma {:induction false} TextByParts(a: string, x: string, b: string, y: string)
    requires |a| == |b|
    ensures TextLess(a + x, b + y) <==> TextLess(a, b) || (a == b && TextLess(x, y))
  {
    if a == [] {
      assert a + x == x && b + y == y;
    } else {
      assert (a + x)[1..] == a[1..] + x && (b + y)[1..] == b[1..] + y;
      TextByParts(a[1..], x, b[1..], y);
      assert a == [a[0]] + a[1..] && b == [b[0]] + b[1..];
    }
  }

  // ---------------------------------------------------------------------------- numbers of fixed width

  /** The last n digits of v, one by one. */
  function Fixed(v: nat, n: nat): string {
    if n == 0 then [] else Fixed(v / 10, n - 1) + [Digit(v % 10)]
  }

  lemma {:induction false} FixedReadsBack(v: nat, n: nat)
    requires v < Pow10(n)
    ensures |Fixed(v, n)| == n && AllDigits(Fixed(v, n)) && ReadNumber(Fixed(v, n)) == v
  {
    if n > 0 {
      FixedReadsBack(v / 10, n - 1);
      assert Fixed(v, n)[..n - 1] == Fixed(v / 10, n - 1);
    }
  }

  /** Zero padding to the field's width, as the standard prints it, is the fixed-width form. */
  lemma PaddedIsFixed(v: nat, n: nat)
    requires n >= 1 && v < Pow10(n)
    ensures NumericCode(v, n) == Fixed(v, n)
  {
    CodeReadsBack(v, n);
    FixedReadsBack(v, n);
    SameLengthSameNumber(NumericCode(v, n), Fixed(v, n));
  }

  lemma {:induction false} FixedKeepsOrder(v: nat, w: nat, n: nat)
    requires v < w < Pow10(n)
    ensures TextLess(Fixed(v, n), Fixed(w, n))
  {
    FixedReadsBack(v / 10, n - 1);
    FixedReadsBack(w / 10, n - 1);
    TextByParts(Fixed(v / 10, n - 1), [Digit(v % 10)], Fixed(w / 10, n - 1), [Digit(w % 10)]);
    if v / 10 < w / 10 {
      FixedKeepsOrder(v / 10, w / 10, n - 1);
    }
  }

  // ------------------------------------------------------------------- sequences of fields and separators

  const WIDTHS: seq<nat> := [4, 2, 2, 2, 2, 2, 3]
  const MARKS := "--T::.Z"

  predicate Fit(vals: seq<nat>, widths: seq<nat>) {
    |vals| == |widths| && forall i | 0 <= i < |vals| :: widths[i] >= 1 && vals[i] < Pow10(widths[i])
  }

  function Render(vals: seq<nat>, widths: seq<nat>, marks: string): string
    requires |vals| == |widths| == |marks|
  {
    if vals == [] then []
    else NumericCode(vals[0], widths[0]) + ([marks[0]] + Render(vals[1..], widths[1..], marks[1..]))
  }

  /** Read fields of known widths back; None if the text does not have that shape. */
  function Scan(s: string, widths: seq<nat>, marks: string): Option<seq<nat>>
    requires |widths| == |marks|
  {
    if widths == [] then (if s == [] then Some([]) else None)
    else
      var n := widths[0];
      if |s| <= n || s[n] != marks[0] || !(forall c | c in s[..n] :: IsDigit(c)) then None
      else
        match Scan(s[n + 1..], widths[1..], marks[1..])
        case None => None
        case Some(rest) => Some([ReadNumber(s[..n])] + rest)
  }

  lemma ScanOne(head: string, mark: char, rest: string, widths: seq<nat>, marks: string)
    requires |widths| == |marks| >= 1 && widths[0] == |head| && marks[0] == mark && AllDigits(head)
    ensures Scan(head + ([mark] + rest), widths, marks)
         == match Scan(rest, widths[1..], marks[1..]) case None => None case Some(r) => Some([ReadNumber(head)] + r)
  {
    var s := head + ([mark] + rest);
    assert s[..|head|] == head && s[|head|] == mark && s[|head| + 1..] == rest;
  }

  lemma {:induction false} ScanRender(vals: seq<nat>, widths: seq<nat>, marks: string)
    requires Fit(vals, widths) && |widths| == |marks|
    ensures Scan(Render(vals, widths, marks), widths, marks) == Some(vals)
  {
    if vals != [] {
      var n := widths[0];
      CodeReadsBack(vals[0], n);
      ScanOne(NumericCode(vals[0], n), marks[0], Render(vals[1..], widths[1..], marks[1..]), widths, marks);
      ScanRender(vals[1..], widths[1..], marks[1..]);
      assert vals == [vals[0]] + vals[1..];
    }
  }

  /** Fields compared from the most significant down. */
  predicate FieldsLess(a: seq<nat>, b: seq<nat>)
    requires |a| == |b|
  {
    if a == [] then false else a[0] < b[0] || (a[0] == b[0] && FieldsLess(a[1..], b[1..]))
  }

  lemma {:induction false} RenderKeepsOrder(a: seq<nat>, b: seq<nat>, widths: seq<nat>, marks: string)
    requires Fit(a, widths) && Fit(b, widths) && |widths| == |marks| && FieldsLess(a, b)
    ensures TextLess(Render(a, widths, marks), Render(b, widths, marks))
  {
    var n := widths[0];
    var x := [marks[0]] + Render(a[1..], widths[1..], marks[1..]);
    var y := [marks[0]] + Render(b[1..], widths[1..], marks[1..]);
    CodeReadsBack(a[0], n);
    CodeReadsBack(b[0], n);
    TextByParts(NumericCode(a[0], n), x, NumericCode(b[0], n), y);
    if a[0] < b[0] {
      PaddedIsFixed(a[0], n);
      PaddedIsFixed(b[0], n);
      FixedKeepsOrder(a[0], b[0], n);
    } else {
      RenderKeepsOrder(a[1..], b[1..], widths[1..], marks[1..]);
      assert x[1..] == Render(a[1..], widths[1..], marks[1..]) && y[1..] == Render(b[1..], widths[1..], marks[1..]);
    }
  }

  // -------------------------------------------------------------------------------------- the calendar

  const DAY := 86_400_000

  /** The number of the first day of year y; division rounds down. */
  function DayFromYear(y: int): int {
    365 * (y - 1970) + (y - 1969) / 4 - (y - 1901) / 100 + (y - 1601) / 400
  }

  predicate Leap(y: int) {
    (y % 4 == 0 && y % 100 != 0) || y % 400 == 0
  }

  lemma Every4(y: int)
    ensures (y - 1968) / 4 - (y - 1969) / 4 == if y % 4 == 0 then 1 else 0
  {
  }

  lemma Every100(y: int)
    ensures (y - 1900) / 100 - (y - 1901) / 100 == if y % 100 == 0 then 1 else 0
  {
  }

  lemma Every400(y: int)
    ensures (y - 1600) / 400 - (y - 1601) / 400 == if y % 400 == 0 then 1 else 0
  {
  }

  lemma CenturiesAreMultiples(y: int)
    ensures y % 400 == 0 ==> y % 100 == 0
    ensures y % 100 == 0 ==> y % 4 == 0
  {
  }

  lemma YearLength(y: int)
    ensures DayFromYear(y + 1) - DayFromYear(y) == if Leap(y) then 366 else 365
  {
    Every4(y);
    Every100(y);
    Every400(y);
    CenturiesAreMultiples(y);
    assert y + 1 - 1969 == y - 1968 && y + 1 - 1901 == y - 1900 && y + 1 - 1601 == y - 1600;
  }

  lemma {:induction false} YearsAscend(y: int, z: int)
    requires y <= z
    ensures DayFromYear(y) <= DayFromYear(z)
    decreases z - y
  {
    if y < z {
      YearLength(y);
      YearsAscend(y + 1, z);
    }
  }

  /** The year holding day d, searched upwards from y. */
  function YearOf(y: int, d: int): (r: int)
    requires DayFromYear(y) <= d
    ensures y <= r && DayFromYear(r) <= d < DayFromYear(r + 1)
    decreases d - DayFromYear(y)
  {
    YearLength(y);
    if d < DayFromYear(y + 1) then y else YearOf(y + 1, d)
  }

  /** Days of the year before month m (1 for January); 13 gives the length of the year. */
  function DaysBefore(m: int, leap: bool): int
    requires 1 <= m <= 13
  {
    var extra := if leap && m > 2 then 1 else 0;
    [0, 31, 59, 90, 120, 151, 181, 212, 243, 273, 304, 334, 365][m - 1] + extra
  }

  function MonthOf(n: int, leap: bool): (m: int)
    requires 0 <= n < DaysBefore(13, leap)
    ensures 1 <= m <= 12 && DaysBefore(m, leap) <= n < DaysBefore(m + 1, leap)
    ensures DaysBefore(m + 1, leap) - DaysBefore(m, leap) <= 31
  {
    if n < DaysBefore(2, leap) then 1
    else if n < DaysBefore(3, leap) then 2
    else if n < DaysBefore(4, leap) then 3
    else if n < DaysBefore(5, leap) then 4
    else if n < DaysBefore(6, leap) then 5
    else if n < DaysBefore(7, leap) then 6
    else if n < DaysBefore(8, leap) then 7
    else if n < DaysBefore(9, leap) then 8
    else if n < DaysBefore(10, leap) then 9
    else if n < DaysBefore(11, leap) then 10
    else if n < DaysBefore(12, leap) then 11
    else 12
  }

  lemma MonthsAscend(m: int, k: int, leap: bool)
    requires 1 <= m <= k <= 13
    ensures DaysBefore(m, leap) <= DaysBefore(k, leap)
  {
  }

  /** Times whose year has four digits. */
  predicate FourDigitYear(t: Time) {
    DayFromYear(0) * DAY <= t < DayFromYear(10_000) * DAY
  }

  function Year(t: Time): (y: int)
    requires FourDigitYear(t)
    ensures 0 <= y <= 9999 && DayFromYear(y) <= t / DAY < DayFromYear(y + 1)
  {
    var y := YearOf(0, t / DAY);
    assert y <= 9999 by {
      if y > 9999 {
        YearsAscend(10_000, y);
      }
    }
    y
  }

  function DayInYear(t: Time): (n: int)
    requires FourDigitYear(t)
    ensures 0 <= n < DaysBefore(13, Leap(Year(t)))
  {
    YearLength(Year(t));
    t / DAY - DayFromYear(Year(t))
  }

  function DateFields(t: Time): (f: seq<nat>)
    requires FourDigitYear(t)
    ensures |f| == 3 && f[0] == Year(t) && 1 <= f[1] <= 12 && 1 <= f[2] <= 31
    ensures DayInYear(t) == DaysBefore(f[1], Leap(f[0])) + f[2] - 1
    ensures f[1] == MonthOf(DayInYear(t), Leap(Year(t)))
  {
    var leap := Leap(Year(t));
    var m := MonthOf(DayInYear(t), leap);
    [Year(t), m, DayInYear(t) - DaysBefore(m, leap) + 1]
  }

  function ClockFields(t: Time): (f: seq<nat>)
    ensures |f| == 4 && f[0] < 24 && f[1] < 60 && f[2] < 60 && f[3] < 1000
    ensures t % DAY == ((f[0] * 60 + f[1]) * 60 + f[2]) * 1000 + f[3]
  {
    var seconds := t % DAY / 1000;
    var minutes := seconds / 60;
    [minutes / 60, minutes % 60, seconds % 60, t % DAY % 1000]
  }

  /** `toISOString` */
  function IsoString(t: Time): string
    requires FourDigitYear(t)
  {
    Render(DateFields(t) + ClockFields(t), WIDTHS, MARKS)
  }

  /** `new Date(text)` for a text of this form whose fields are in range. */
  function ReadIso(s: string): Option<Time> {
    match Scan(s, WIDTHS, MARKS)
    case None => None
    case Some(f) =>
      if |f| != 7 || !(1 <= f[1] <= 12) then None
      else Some((DayFromYear(f[0]) + DaysBefore(f[1], Leap(f[0])) + f[2] - 1) * DAY
                + (((f[3] * 60 + f[4]) * 60 + f[5]) * 1000 + f[6]))
  }

  lemma FieldsFit(t: Time)
    requires FourDigitYear(t)
    ensures Fit(DateFields(t) + ClockFields(t), WIDTHS)
  {
    assert Pow10(2) == 100 && Pow10(3) == 1000 && Pow10(4) == 10_000;
  }

  /** Printing a time and reading it back is the identity. */
  lemma IsoRoundTrip(t: Time)
    requires FourDigitYear(t)
    ensures ReadIso(IsoString(t)) == Some(t)
  {
    FieldsFit(t);
    ScanRender(DateFields(t) + ClockFields(t), WIDTHS, MARKS);
    assert t == t / DAY * DAY + t % DAY;
  }

  lemma DatesAscend(s: Time, t: Time)
    requires FourDigitYear(s) && FourDigitYear(t) && s / DAY < t / DAY
    ensures FieldsLess(DateFields(s), DateFields(t))
  {
    var a, b := DateFields(s), DateFields(t);
    if a[0] > b[0] {
      YearsAscend(b[0] + 1, a[0]);
    }
    if a[0] == b[0] && a[1] > b[1] {
      MonthsAscend(b[1] + 1, a[1], Leap(a[0]));
    }
    FieldsByThree(a, b);
  }

  lemma FieldsByThree(a: seq<nat>, b: seq<nat>)
    requires |a| == |b| == 3
    ensures FieldsLess(a, b) <==>
              a[0] < b[0] || (a[0] == b[0] && (a[1] < b[1] || (a[1] == b[1] && a[2] < b[2])))
  {
    var x, y := a[1..], b[1..];
    assert x[0] == a[1] && y[0] == b[1] && x[1..] == [a[2]] && y[1..] == [b[2]];
    assert FieldsLess(x[1..], y[1..]) <==> a[2] < b[2];
  }

  lemma ClocksAscend(s: Time, t: Time)
    requires s % DAY < t % DAY
    ensures FieldsLess(ClockFields(s), ClockFields(t))
  {
    var a, b := ClockFields(s), ClockFields(t);
    FieldsByThree(a[1..], b[1..]);
    assert a[1..][0] == a[1] && a[1..][1] == a[2] && a[1..][2] == a[3];
    assert b[1..][0] == b[1] && b[1..][1] == b[2] && b[1..][2] == b[3];
  }

  lemma {:induction false} FieldsByParts(a: seq<nat>, x: seq<nat>, b: seq<nat>, y: seq<nat>)
    requires |a| == |b| && |x| == |y|
    ensures FieldsLess(a + x, b + y) <==> FieldsLess(a, b) || (a == b && FieldsLess(x, y))
  {
    if a == [] {
      assert a + x == x && b + y == y;
    } else {
      assert (a + x)[1..] == a[1..] + x && (b + y)[1..] == b[1..] + y;
      FieldsByParts(a[1..], x, b[1..], y);
      assert a == [a[0]] + a[1..] && b == [b[0]] + b[1..];
    }
  }

  lemma EarlierPrintsLess(s: Time, t: Time)
    requires FourDigitYear(s) && FourDigitYear(t) && s < t
    ensures TextLess(IsoString(s), IsoString(t))
  {
    FieldsByParts(DateFields(s), ClockFields(s), DateFields(t), ClockFields(t));
    if s / DAY < t / DAY {
      DatesAscend(s, t);
    } else {
      assert s / DAY == t / DAY && s % DAY < t % DAY;
      SameDaySameDate(s, t);
      ClocksAscend(s, t);
    }
    FieldsFit(s);
    FieldsFit(t);
    RenderKeepsOrder(DateFields(s) + ClockFields(s), DateFields(t) + ClockFields(t), WIDTHS, MARKS);
  }

  lemma SameDaySameDate(s: Time, t: Time)
    requires FourDigitYear(s) && FourDigitYear(t) && s / DAY == t / DAY
    ensures DateFields(s) == DateFields(t)
  {
  }

  /** The order of the stored strings is the order of the times, so SQL and the services agree on every comparison. */
  lemma TextOrderIsTimeOrder(s: Time, t: Time)
    requires FourDigitYear(s) && FourDigitYear(t)
    ensures TextLess(IsoString(s), IsoString(t)) <==> s < t
    ensures IsoString(s) == IsoString(t) <==> s == t
  {
    IsoRoundTrip(s);
    IsoRoundTrip(t);
    if s < t {
      EarlierPrintsLess(s, t);
    } else if t < s {
      EarlierPrintsLess(t, s);
    }
    TextOrderStrict(IsoString(s), IsoString(t));
  }

  // ------------------------------------------------------------------------------ what the database compares

  ghost predicate Storable(t: Tables) {
    && (forall s | s in t.sessions :: FourDigitYear(t.sessions[s].expiresAt))
    && (forall n | n in t.notices :: FourDigitYear(t.notices[n].dispatchAt))
  }

  /** `expires_at > ?` on the stored strings selects exactly the sessions that have not expired. */
  lemma SqlCountsLiveSessions(t: Tables, u: Id, now: Time)
    requires Storable(t) && FourDigitYear(now)
    ensures LiveSessions(t, u, now)
         == set s | s in t.sessions && t.sessions[s].userId == u && !t.sessions[s].invalidated
                    && TextLess(IsoString(now), IsoString(t.sessions[s].expiresAt))
  {
    forall s | s in t.sessions
      ensures TextLess(IsoString(now), IsoString(t.sessions[s].expiresAt)) <==> now < t.sessions[s].expiresAt
    {
      TextOrderIsTimeOrder(now, t.sessions[s].expiresAt);
    }
  }

  /** `ORDER BY dispatch_timestamp` on the stored strings is oldest first. */
  lemma SqlOrdersByTime(t: Tables, q: seq<Id>)
    requires Storable(t) && forall i | 0 <= i < |q| :: q[i] in t.notices
    ensures (forall i, j | 0 <= i < j < |q| ::
               !TextLess(IsoString(t.notices[q[j]].dispatchAt), IsoString(t.notices[q[i]].dispatchAt)))
       <==> (forall i, j | 0 <= i < j < |q| :: t.notices[q[i]].dispatchAt <= t.notices[q[j]].dispatchAt)
  {
    forall i, j | 0 <= i < j < |q|
      ensures TextLess(IsoString(t.notices[q[j]].dispatchAt), IsoString(t.notices[q[i]].dispatchAt))
         <==> t.notices[q[j]].dispatchAt < t.notices[q[i]].dispatchAt
    {
      TextOrderIsTimeOrder(t.notices[q[j]].dispatchAt, t.notices[q[i]].dispatchAt);
    }
  }
}
