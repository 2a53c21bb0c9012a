/** The few pieces of SQLite's own semantics the repositories rely on: the LIKE
    pattern `'sensor-%'`, `SUBSTR(id, 8)`, `CAST(... AS INTEGER)` on text, and the
    BINARY collation that `ORDER BY id` sorts with. */
module Sqlite {
  import opened Text

  /** The literal part of the pattern `'sensor-%'`. */
  const SensorPrefix: string := "sensor-"

  /** `id LIKE 'sensor-%'`: LIKE folds ASCII letters only, and `%` matches any rest. */
  predicate LikeSensorPattern(id: string) {
    |id| >= |SensorPrefix| && Lower(id[..|SensorPrefix|]) == SensorPrefix
  }

  /** `SUBSTR(id, 8)`: one-based, so the seven characters of the prefix are skipped. */
  function Substr8(id: string): string
    requires |id| >= 7
  {
    id[7..]
  }

  /** The characters SQLite skips before a number when it converts text. */
  predicate IsSqlSpace(c: char) {
    c == ' ' || c == '\t' || c == '\n' || c == '\U{0B}' || c == '\U{0C}' || c == '\r'
  }

  function SkipSpace(s: string): (r: string)
    ensures |r| <= |s|
    ensures |r| > 0 ==> !IsSqlSpace(r[0])
  {
    if |s| > 0 && IsSqlSpace(s[0]) then SkipSpace(s[1..]) else s
  }

  /** The longest prefix of s made of decimal digits. */
  function DigitRun(s: string): (r: string)
    ensures AllDigits(r) && r <= s
  {
    if |s| > 0 && IsDigit(s[0]) then [s[0]] + DigitRun(s[1..]) else []
  }

  /** `CAST(s AS INTEGER)` on text: leading white space is skipped, an optional sign
      is read, then the longest run of digits; no digits at all gives 0. */
  function CastToInteger(s: string): int {
    var t := SkipSpace(s);
    if |t| > 0 && t[0] == '-' then -(ValueOf(DigitRun(t[1..])) as int)
    else if |t| > 0 && t[0] == '+' then ValueOf(DigitRun(t[1..]))
    else ValueOf(DigitRun(t))
  }

  lemma {:induction false} DigitRunOfDigits(s: string)
    requires AllDigits(s)
    ensures DigitRun(s) == s
    decreases |s|
  {
    if |s| > 0 {
      DigitRunOfDigits(s[1..]);
    }
  }

  /** CAST AS INTEGER of a digit string is the number it spells. */
  lemma CastOfDigits(p: string)
    requires AllDigits(p)
    ensures CastToInteger(p) == ValueOf(p)
  {
    assert SkipSpace(p) == p;
    DigitRunOfDigits(p);
  }

  /** CAST AS INTEGER of a minus sign and a digit string is the negated number. */
  lemma CastOfNegative(p: string)
    requires AllDigits(p)
    ensures CastToInteger("-" + p) == -(ValueOf(p) as int)
  {
    var t := "-" + p;
    assert SkipSpace(t) == t;
    assert t[1..] == p;
    DigitRunOfDigits(p);
  }

  /** CAST AS INTEGER reads back exactly the number `%03d` wrote, negative or not. */
  lemma CastFormatRoundTrip(n: int)
    ensures CastToInteger(Format03(n)) == n
  {
    if n >= 0 {
      var p := ZeroPad(Decimal(n), 3);
      CastOfDigits(p);
      ZeroPadValue(Decimal(n), 3);
      DecimalValue(n);
    } else {
      var p := ZeroPad(Decimal(-n), 2);
      CastOfNegative(p);
      ZeroPadValue(Decimal(-n), 2);
      DecimalValue(-n);
    }
  }

  /** Strict order of the BINARY collation: code points compared left to right,
      a proper prefix sorting first. */
  predicate Below(a: string, b: string) {
    |b| > 0 && (|a| == 0 || a[0] < b[0] || (a[0] == b[0] && Below(a[1..], b[1..])))
  }

  lemma {:induction false} BelowIrreflexive(a: string)
    ensures !Below(a, a)
  {
    if |a| > 0 {
      BelowIrreflexive(a[1..]);
    }
  }

  lemma {:induction false} BelowTransitive(a: string, b: string, c: string)
    requires Below(a, b) && Below(b, c)
    ensures Below(a, c)
    decreases |a|
  {
    if |a| > 0 && a[0] == b[0] && b[0] == c[0] {
      BelowTransitive(a[1..], b[1..], c[1..]);
    }
  }

  lemma {:induction false} BelowAsymmetric(a: string, b: string)
    requires Below(a, b)
    ensures !Below(b, a)
    decreases |a|
  {
    if |a| > 0 && a[0] == b[0] {
      BelowAsymmetric(a[1..], b[1..]);
    }
  }

  lemma {:induction false} BelowTotal(a: string, b: string)
    requires a != b
    ensures Below(a, b) || Below(b, a)
    decreases |a|
  {
    if |a| > 0 && |b| > 0 && a[0] == b[0] {
      assert a == [a[0]] + a[1..] && b == [b[0]] + b[1..];
      BelowTotal(a[1..], b[1..]);
    }
  }

  lemma BelowIsStrictOrder()
    ensures forall a, b :: Below(a, b) ==> !Below(b, a)
    ensures forall a, b, c :: Below(a, b) && Below(b, c) ==> Below(a, c)
  {
    forall a, b | Below(a, b)
      ensures !Below(b, a)
    {
      BelowAsymmetric(a, b);
    }
    forall a, b, c | Below(a, b) && Below(b, c)
      ensures Below(a, c)
    {
      BelowTransitive(a, b, c);
    }
  }

  predicate IsLeast(m: string, keys: set<string>) {
    m in keys && forall k :: k in keys && k != m ==> Below(m, k)
  }

  lemma {:induction false} LeastExists(keys: set<string>)
    requires keys != {}
    ensures exists m :: IsLeast(m, keys)
    decreases |keys|
  {
    var x :| x in keys;
    var rest := keys - {x};
    if rest == {} {
      assert keys == {x};
      assert IsLeast(x, keys);
    } else {
      LeastExists(rest);
      var m :| IsLeast(m, rest);
      if Below(m, x) {
        assert IsLeast(m, keys);
      } else {
        BelowTotal(m, x);
        forall k | k in keys && k != x
          ensures Below(x, k)
        {
          if k != m {
            BelowTransitive(x, m, k);
          }
        }
        assert IsLeast(x, keys);
      }
    }
  }

  /** The key that sorts first; unique because Below is a strict total order. */
  function Least(keys: set<string>): (m: string)
    requires keys != {}
    ensures m in keys
    ensures forall k :: k in keys && k != m ==> Below(m, k)
  {
    LeastExists(keys);
    BelowIsStrictOrder();
    var m :| IsLeast(m, keys); m
  }

  ghost predicate StrictlyAscending(ids: seq<string>) {
    forall i, j :: 0 <= i < j < |ids| ==> Below(ids[i], ids[j])
  }

  /** The keys in the order `ORDER BY id` returns them. */
  function SortedKeys(keys: set<string>): (r: seq<string>)
    ensures |r| == |keys|
    ensures forall k :: k in r <==> k in keys
    ensures StrictlyAscending(r)
    decreases |keys|
  {
    if keys == {} then []
    else
      var m := Least(keys);
      [m] + SortedKeys(keys - {m})
  }
}
