/** The zero-padded numeric codes that passcodes and deletion confirmations use. */
module Codes {
  import opened Prelude

  function Pow10(n: nat): nat {
    if n == 0 then 1 else 10 * Pow10(n - 1)
  }

  predicate IsDigit(c: char) {
    '0' <= c <= '9'
  }

  ghost predicate AllDigits(s: string) {
    forall c | c in s :: IsDigit(c)
  }

  function Digit(d: nat): char
    requires d < 10
  {
    '0' + d as char
  }

  function DigitValue(c: char): nat
    requires IsDigit(c)
  {
    (c - '0') as nat
  }

  /** The shortest decimal form, as `toString` gives it. */
  function Decimal(v: nat): string {
    if v < 10 then [Digit(v)] else Decimal(v / 10) + [Digit(v % 10)]
  }

  /** As many leading zeros as bring the text to length n. */
  function PadStart(s: string, n: nat): string
    decreases n - |s|
  {
    if |s| >= n then s else PadStart("0" + s, n)
  }

  /** The code made from a random value. */
  function NumericCode(v: nat, n: nat): string {
    PadStart(Decimal(v), n)
  }

  /** The number a string of digits denotes. */
  function ReadNumber(s: string): nat
    requires AllDigits(s)
  {
    if s == [] then 0 else 10 * ReadNumber(s[..|s| - 1]) + DigitValue(s[|s| - 1])
  }

  lemma {:induction false} DecimalReadsBack(v: nat)
    ensures AllDigits(Decimal(v)) && Decimal(v) != [] && ReadNumber(Decimal(v)) == v
  {
    if v < 10 {
      assert Decimal(v)[..0] == [];
    } else {
      DecimalReadsBack(v / 10);
      var front := Decimal(v / 10);
      assert Decimal(v)[..|front|] == front;
    }
  }

  lemma {:induction false} DecimalFits(v: nat, n: nat)
    requires n >= 1 && v < Pow10(n)
    ensures |Decimal(v)| <= n
  {
    if v >= 10 {
      assert n >= 2;
      DecimalFits(v / 10, n - 1);
    }
  }

  lemma {:induction false} LeadingZero(s: string)
    requires AllDigits(s)
    ensures AllDigits("0" + s) && ReadNumber("0" + s) == ReadNumber(s)
  {
    if s == [] {
      assert "0" + s == "0" && "0"[..0] == [];
    } else {
      var front := s[..|s| - 1];
      LeadingZero(front);
      assert ("0" + s)[..|"0" + s| - 1] == "0" + front;
    }
  }

  lemma {:induction false} PaddingKeepsTheNumber(s: string, n: nat)
    requires AllDigits(s)
    ensures AllDigits(PadStart(s, n)) && ReadNumber(PadStart(s, n)) == ReadNumber(s)
    ensures |PadStart(s, n)| == Max(|s|, n)
    decreases n - |s|
  {
    if |s| < n {
      LeadingZero(s);
      PaddingKeepsTheNumber("0" + s, n);
    }
  }

  /** Every value in range gives a code of exactly n digits that reads back to it. */
  lemma CodeReadsBack(v: nat, n: nat)
    requires n >= 1 && v < Pow10(n)
    ensures var code := NumericCode(v, n); |code| == n && AllDigits(code) && ReadNumber(code) == v
  {
    DecimalReadsBack(v);
    DecimalFits(v, n);
    PaddingKeepsTheNumber(Decimal(v), n);
  }

  lemma {:induction false} NumberInRange(s: string)
    requires AllDigits(s)
    ensures ReadNumber(s) < Pow10(|s|)
  {
    if s != [] {
      var n := |s| - 1;
      NumberInRange(s[..n]);
      assert ReadNumber(s) == 10 * ReadNumber(s[..n]) + DigitValue(s[n]);
      assert ReadNumber(s[..n]) < Pow10(n) && Pow10(n + 1) == 10 * Pow10(n);
    }
  }

  lemma {:induction false} SameLengthSameNumber(a: string, b: string)
    requires AllDigits(a) && AllDigits(b) && |a| == |b| && ReadNumber(a) == ReadNumber(b)
    ensures a == b
  {
    if a != [] {
      var n := |a| - 1;
      assert DigitValue(a[n]) == ReadNumber(a) % 10 == DigitValue(b[n]);
      SameLengthSameNumber(a[..n], b[..n]);
      assert a == a[..n] + [a[n]] && b == b[..n] + [b[n]];
    }
  }

  /** Every string of n digits is the code of a value in range. */
  lemma EveryCodeIsProduced(s: string)
    requires AllDigits(s) && |s| >= 1
    ensures ReadNumber(s) < Pow10(|s|) && NumericCode(ReadNumber(s), |s|) == s
  {
    NumberInRange(s);
    CodeReadsBack(ReadNumber(s), |s|);
    SameLengthSameNumber(s, NumericCode(ReadNumber(s), |s|));
  }

  /** No two values in range share a code. */
  lemma CodesDiffer(v: nat, w: nat, n: nat)
    requires n >= 1 && v < Pow10(n) && w < Pow10(n) && v != w
    ensures NumericCode(v, n) != NumericCode(w, n)
  {
    CodeReadsBack(v, n);
    CodeReadsBack(w, n);
  }
}
