/** Character-level helpers shared by both services: ASCII lower-casing, decimal
    digits and the zero-padded integer formatting of Go's `%03d` and Python's `:03d`. */
module Text {

  /** ASCII lower-casing of one character; every other character is unchanged. */
  function LowerChar(c: char): char {
    if 'A' <= c <= 'Z' then (c as int + 32) as char else c
  }

  function Lower(s: string): string {
    seq(|s|, i requires 0 <= i < |s| => LowerChar(s[i]))
  }

  /** Lower-casing leaves a string without upper-case ASCII letters as it is. */
  lemma LowerOfLowerCase(s: string)
    requires forall i :: 0 <= i < |s| ==> !('A' <= s[i] <= 'Z')
    ensures Lower(s) == s
  {
  }

  predicate IsDigit(c: char) {
    '0' <= c <= '9'
  }

  predicate AllDigits(s: string) {
    forall i :: 0 <= i < |s| ==> IsDigit(s[i])
  }

  function DigitChar(d: nat): (c: char)
    requires d < 10
    ensures IsDigit(c)
  {
    ('0' as int + d) as char
  }

  function DigitValue(c: char): (d: nat)
    requires IsDigit(c)
    ensures d < 10 && DigitChar(d) == c
  {
    c as int - '0' as int
  }

  /** The shortest decimal spelling of n: "0" for zero, no leading zeros otherwise. */
  function Decimal(n: nat): (s: string)
    ensures 1 <= |s| && AllDigits(s)
    ensures n < 10 <==> |s| == 1
    ensures |s| > 1 ==> s[0] != '0'
    decreases n
  {
    if n < 10 then [DigitChar(n)] else Decimal(n / 10) + [DigitChar(n % 10)]
  }

  /** The number a string of decimal digits denotes, read most significant digit first. */
  function ValueOf(s: string): nat
    requires AllDigits(s)
  {
    if |s| == 0 then 0 else ValueOf(s[..|s| - 1]) * 10 + DigitValue(s[|s| - 1])
  }

  /** Left-pads s with '0' up to width w; a longer s is left as it is. */
  function ZeroPad(s: string, w: nat): (r: string)
    ensures |r| == if |s| >= w then |s| else w
    ensures AllDigits(s) ==> AllDigits(r)
    ensures |s| >= 1 ==> r[|r| - 1] == s[|s| - 1]
    decreases w - |s|
  {
    if |s| >= w then s else ZeroPad(['0'] + s, w)
  }

  /** Go's fmt `%03d` and Python's `{:03d}`: the width 3 counts the sign, and the
      zero padding goes between the sign and the digits. */
  function Format03(n: int): (s: string)
    ensures 3 <= |s|
    ensures n >= 0 ==> AllDigits(s)
    ensures n < 0 ==> s[0] == '-' && AllDigits(s[1..])
  {
    if n >= 0 then ZeroPad(Decimal(n), 3) else "-" + ZeroPad(Decimal(-n), 2)
  }

  lemma {:induction false} DecimalValue(n: nat)
    ensures ValueOf(Decimal(n)) == n
    decreases n
  {
    if n >= 10 {
      var s := Decimal(n);
      assert s[..|s| - 1] == Decimal(n / 10);
      DecimalValue(n / 10);
    }
  }

  lemma {:induction false} LeadingZeroValue(s: string)
    requires AllDigits(s)
    ensures ValueOf(['0'] + s) == ValueOf(s)
    decreases |s|
  {
    var z := ['0'] + s;
    if |s| > 0 {
      assert z[..|z| - 1] == ['0'] + s[..|s| - 1];
      LeadingZeroValue(s[..|s| - 1]);
    } else {
      assert z[..|z| - 1] == [];
    }
  }

  /** Zero padding never changes the number a digit string denotes. */
  lemma {:induction false} ZeroPadValue(s: string, w: nat)
    requires AllDigits(s)
    ensures ValueOf(ZeroPad(s, w)) == ValueOf(s)
    decreases w - |s|
  {
    if |s| < w {
      LeadingZeroValue(s);
      ZeroPadValue(['0'] + s, w);
    }
  }

  lemma DecimalLength(n: nat)
    ensures n < 100 ==> |Decimal(n)| <= 2
    ensures n < 1000 ==> |Decimal(n)| <= 3
  {
  }

  /** Every number from 0 to 999 is spelled with exactly three digits. */
  lemma Format03ThreeDigits(n: int)
    requires 0 <= n <= 999
    ensures |Format03(n)| == 3 && AllDigits(Format03(n))
  {
    DecimalLength(n);
  }
}
