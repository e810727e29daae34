/**
 * The string operations the query engine relies on: case-insensitive
 * substring search (customer filter), the code-point order of strings
 * (grouping by country), and the decimal rendering of integers (month
 * labels and scatter-point names).
 */
module Text {

  /** ASCII lower-casing of one character. */
  function LowerChar(ch: char): char
  {
    if 'A' <= ch <= 'Z' then (ch as int + 32) as char else ch
  }

  function Lower(s: string): string
  {
    seq(|s|, i requires 0 <= i < |s| => LowerChar(s[i]))
  }

  /** `needle` occurs as a contiguous block of `hay`. */
  predicate IsSubstring(needle: string, hay: string)
  {
    exists i :: 0 <= i <= |hay| && needle <= hay[i..]
  }

  /** Case-insensitive containment of `needle` in `hay`. */
  predicate ContainsIgnoreCase(hay: string, needle: string)
  {
    IsSubstring(Lower(needle), Lower(hay))
  }

  /** The empty needle matches every name, so `Some("")` and `None` filter alike. */
  lemma EmptyNeedleMatches(hay: string)
    ensures ContainsIgnoreCase(hay, "")
  {
    assert Lower("") <= Lower(hay)[0..];
  }

  /** The match ignores the case of both the name and the search text. */
  lemma MatchIgnoresNameCase(hay: string, needle: string)
    ensures ContainsIgnoreCase(hay, needle) <==> ContainsIgnoreCase(Lower(hay), needle)
    ensures ContainsIgnoreCase(hay, needle) <==> ContainsIgnoreCase(hay, Lower(needle))
  {
    assert Lower(Lower(hay)) == Lower(hay);
    assert Lower(Lower(needle)) == Lower(needle);
  }

  // ---------------------------------------------------------------------
  // Code-point (lexicographic) order of strings, as Python compares them.

  /** `a` sorts strictly before `b`. */
  predicate StrLess(a: string, b: string)
  {
    if a == [] then b != []
    else if b == [] then false
    else if a[0] != b[0] then a[0] < b[0]
    else StrLess(a[1..], b[1..])
  }

  lemma {:induction false} StrLessIrreflexive(a: string)
    ensures !StrLess(a, a)
  {
    if a != [] {
      StrLessIrreflexive(a[1..]);
    }
  }

  lemma {:induction false} StrLessTransitive(a: string, b: string, c: string)
    requires StrLess(a, b) && StrLess(b, c)
    ensures StrLess(a, c)
  {
    if a != [] && a[0] == b[0] && b[0] == c[0] {
      StrLessTransitive(a[1..], b[1..], c[1..]);
    }
  }

  lemma {:induction false} StrLessTotal(a: string, b: string)
    requires a != b
    ensures StrLess(a, b) || StrLess(b, a)
  {
    if a != [] && b != [] && a[0] == b[0] {
      assert a == [a[0]] + a[1..] && b == [b[0]] + b[1..];
      StrLessTotal(a[1..], b[1..]);
    }
  }

  // ---------------------------------------------------------------------
  // Decimal rendering of integers (`str(n)` / `astype(str)`).

  function DigitChar(d: nat): (ch: char)
    requires d < 10
    ensures '0' <= ch <= '9'
  {
    ('0' as int + d) as char
  }

  function DigitValue(ch: char): nat
    requires '0' <= ch <= '9'
  {
    ch as int - '0' as int
  }

  predicate AllDigits(s: string)
  {
    forall i :: 0 <= i < |s| ==> '0' <= s[i] <= '9'
  }

  /** The decimal digits of `n`, most significant first, without leading zeros. */
  function Digits(n: nat): (s: string)
    ensures |s| >= 1 && AllDigits(s)
    ensures n >= 10 ==> |s| >= 2
  {
    if n < 10 then [DigitChar(n)] else Digits(n / 10) + [DigitChar(n % 10)]
  }

  /** Reads back a non-empty string of decimal digits. */
  function ParseDigits(s: string): nat
    requires |s| >= 1 && AllDigits(s)
  {
    if |s| == 1 then DigitValue(s[0])
    else ParseDigits(s[..|s| - 1]) * 10 + DigitValue(s[|s| - 1])
  }

  lemma {:induction false} DigitsRoundTrip(n: nat)
    ensures ParseDigits(Digits(n)) == n
  {
    if n >= 10 {
      var s := Digits(n);
      assert s[..|s| - 1] == Digits(n / 10);
      DigitsRoundTrip(n / 10);
    }
  }

  /** `str(n)` for any integer: a minus sign before the digits of a negative number. */
  function DecimalString(n: int): (s: string)
    ensures |s| >= 1
    ensures forall i :: 0 <= i < |s| ==> s[i] != '/'
  {
    if n < 0 then "-" + Digits(-n) else Digits(n)
  }

  /** Reads back what `DecimalString` writes. */
  function ParseDecimal(s: string): int
    requires |s| >= 1
    requires s[0] == '-' ==> |s| >= 2 && AllDigits(s[1..])
    requires s[0] != '-' ==> AllDigits(s)
  {
    if s[0] == '-' then -(ParseDigits(s[1..]) as int) else ParseDigits(s)
  }

  lemma DecimalRoundTrip(n: int)
    ensures var s := DecimalString(n);
      (s[0] == '-' ==> |s| >= 2 && AllDigits(s[1..])) &&
      (s[0] != '-' ==> AllDigits(s)) &&
      ParseDecimal(s) == n
  {
    if n < 0 {
      assert DecimalString(n)[1..] == Digits(-n);
      DigitsRoundTrip(-n);
    } else {
      DigitsRoundTrip(n);
    }
  }

  lemma DecimalInjective(a: int, b: int)
    requires DecimalString(a) == DecimalString(b)
    ensures a == b
  {
    DecimalRoundTrip(a);
    DecimalRoundTrip(b);
  }

  /** The text of a calendar month: `"month/year"`, e.g. `"1/2003"`. */
  function MonthLabel(year: int, month: int): string
  {
    DecimalString(month) + "/" + DecimalString(year)
  }

  /** The first `'/'` of a month label ends the month part. */
  lemma FirstSlash(year: int, month: int)
    ensures var k := |DecimalString(month)|;
      MonthLabel(year, month)[k] == '/' &&
      forall i :: 0 <= i < k ==> MonthLabel(year, month)[i] != '/'
  {
  }

  /** Distinct (year, month) pairs get distinct labels. */
  lemma MonthLabelInjective(y1: int, m1: int, y2: int, m2: int)
    requires MonthLabel(y1, m1) == MonthLabel(y2, m2)
    ensures y1 == y2 && m1 == m2
  {
    var a1, a2 := DecimalString(m1), DecimalString(m2);
    var text := MonthLabel(y1, m1);
    FirstSlash(y1, m1);
    FirstSlash(y2, m2);
    assert |a1| == |a2|;
    assert a1 == text[..|a1|] == a2;
    DecimalInjective(m1, m2);
    assert DecimalString(y1) == text[|a1| + 1..] == DecimalString(y2);
    DecimalInjective(y1, y2);
  }
}
