/** Decimal numerals: `Number(text)` on a digit run (src/compiler.js line 113) and the
    text of a number when it is concatenated to a string (line 309). Values are exact
    natural numbers; JavaScript's floating-point rounding is not modelled. */
module Numbers {
  import opened CharClasses

  /** A non-empty run of ASCII digits: the text of every Numeric token. */
  predicate IsDigitRun(s: string) {
    |s| > 0 && forall i :: 0 <= i < |s| ==> IsDigit(s[i])
  }

  /** A digit run as it is printed: no leading zero except in "0" itself. */
  predicate IsCanonical(s: string) {
    IsDigitRun(s) && (s[0] == '0' ==> |s| == 1)
  }

  function DigitValue(c: char): (d: nat)
    requires IsDigit(c)
    ensures d < 10
  {
    c as int - '0' as int
  }

  function DigitChar(d: nat): (c: char)
    requires d < 10
    ensures IsDigit(c) && DigitValue(c) == d
  {
    ('0' as int + d) as char
  }

  /** The value of a digit string, read most significant digit first. */
  function DecimalValue(s: string): nat
    requires forall i :: 0 <= i < |s| ==> IsDigit(s[i])
  {
    if s == [] then 0 else 10 * DecimalValue(s[..|s| - 1]) + DigitValue(s[|s| - 1])
  }

  /** The shortest decimal text of `n`. */
  function DecimalText(n: nat): (s: string)
    ensures IsCanonical(s)
  {
    if n < 10 then [DigitChar(n)]
    else DecimalText(n / 10) + [DigitChar(n % 10)]
  }

  /** Reading the printed text of a number gives the number back. */
  lemma {:induction false} ValueOfText(n: nat)
    ensures DecimalValue(DecimalText(n)) == n
  {
    var s := DecimalText(n);
    if n >= 10 {
      ValueOfText(n / 10);
      assert s[..|s| - 1] == DecimalText(n / 10);
    }
  }

  /** A value starting with a zero digit is the value of the rest. */
  lemma {:induction false} LeadingZero(s: string)
    requires IsDigitRun(s) && s[0] == '0'
    ensures DecimalValue(s) == DecimalValue(s[1..])
    decreases |s|
  {
    if |s| > 1 {
      LeadingZero(s[..|s| - 1]);
      assert s[..|s| - 1][1..] == s[1..][..|s[1..]| - 1];
    }
  }

  /** A canonical digit string with at least two digits is at least ten. */
  lemma {:induction false} CanonicalAtLeastTen(s: string)
    requires IsCanonical(s) && |s| >= 2
    ensures DecimalValue(s) >= 10
    decreases |s|
  {
    var p := s[..|s| - 1];
    if |p| >= 2 {
      CanonicalAtLeastTen(p);
    } else {
      assert p[0] == s[0];
    }
  }

  /** Printing the value of a canonical digit string gives the string back. */
  lemma {:induction false} TextOfValue(s: string)
    requires IsCanonical(s)
    ensures DecimalText(DecimalValue(s)) == s
    decreases |s|
  {
    if |s| >= 2 {
      var p, c := s[..|s| - 1], s[|s| - 1];
      assert p[0] == s[0];
      var v, d := DecimalValue(p), DigitValue(c);
      var n := DecimalValue(s);
      assert n == 10 * v + d;
      CanonicalAtLeastTen(s);
      LastDigit(v, d);
      TextOfValue(p);
      assert DecimalText(n) == DecimalText(v) + [DigitChar(d)];
      assert DigitChar(d) == c;
      assert s == p + [c];
    }
  }

  lemma LastDigit(v: nat, d: nat)
    requires d < 10
    ensures (10 * v + d) / 10 == v && (10 * v + d) % 10 == d
  {
  }

  /** Leading zeros do not survive the round trip through a number: "007" prints as "7". */
  lemma LeadingZerosDropped()
    ensures DecimalText(DecimalValue("007")) == "7"
  {
    assert IsDigitRun("007");
    LeadingZero("007");
    LeadingZero("07");
    assert "007"[1..] == "07" && "07"[1..] == "7";
  }
}
