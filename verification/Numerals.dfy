/** Printing of natural numbers, as strconv does it, and reading them back. */
module Numerals {
  function DigitChar(d: nat): char
    requires d < 16
  {
    "0123456789abcdef"[d]
  }

  /** The value of a digit in the given base, -1 for any other character. */
  function DigitValue(c: char, base: nat): int {
    var d := if '0' <= c <= '9' then c as int - '0' as int
             else if 'a' <= c <= 'f' then c as int - 'a' as int + 10
             else if 'A' <= c <= 'F' then c as int - 'A' as int + 10
             else -1;
    if d < base then d else -1
  }

  predicate IsDigit(c: char) {
    '0' <= c <= '9'
  }

  /** Arithmetic in the two bases in use, written out so that it stays linear. */
  function Scale(n: int, base: nat): int {
    if base == 10 then 10 * n else 16 * n
  }

  function Quot(n: nat, base: nat): nat {
    if base == 10 then n / 10 else n / 16
  }

  function Last(n: nat, base: nat): nat {
    if base == 10 then n % 10 else n % 16
  }

  function Digits(n: nat, base: nat): string
    requires base == 10 || base == 16
  {
    if n < base then [DigitChar(n)] else Digits(Quot(n, base), base) + [DigitChar(Last(n, base))]
  }

  /** Positional value; the caller makes sure that all characters are digits. */
  function Value(s: string, base: nat): int {
    if s == [] then 0 else Scale(Value(s[..|s| - 1], base), base) + DigitValue(s[|s| - 1], base)
  }

  lemma DigitRoundTrip(d: nat, base: nat)
    requires d < base <= 16
    ensures DigitValue(DigitChar(d), base) == d
  {
  }

  lemma Appended(s: string, c: char, base: nat)
    ensures Value(s + [c], base) == Scale(Value(s, base), base) + DigitValue(c, base)
  {
    assert (s + [c])[..|s|] == s;
  }

  lemma QuotLast(n: nat, base: nat)
    requires base == 10 || base == 16
    ensures Scale(Quot(n, base), base) + Last(n, base) == n
    ensures Last(n, base) < base && (n >= base ==> Quot(n, base) < n)
  {
  }

  lemma OneDigit(d: nat, base: nat)
    requires d < base <= 16
    ensures Value([DigitChar(d)], base) == d
  {
    DigitRoundTrip(d, base);
    Appended("", DigitChar(d), base);
    assert "" + [DigitChar(d)] == [DigitChar(d)];
  }

  lemma {:induction false} DigitsRoundTrip(n: nat, base: nat)
    requires base == 10 || base == 16
    ensures Value(Digits(n, base), base) == n
    decreases n
  {
    hide DigitChar;
    hide DigitValue;
    hide Value;
    hide Scale;
    hide Quot;
    hide Last;
    QuotLast(n, base);
    if n < base {
      OneDigit(n, base);
    } else {
      DigitsRoundTrip(Quot(n, base), base);
      DigitRoundTrip(Last(n, base), base);
      Appended(Digits(Quot(n, base), base), DigitChar(Last(n, base)), base);
    }
  }

  /** No printed number has a leading zero, except zero itself. */
  lemma {:induction false} NoLeadingZero(n: nat)
    ensures var s := Digits(n, 10);
      && (forall i :: 0 <= i < |s| ==> IsDigit(s[i]))
      && |s| >= 1 && (n > 0 ==> s[0] != '0') && (n == 0 ==> s == "0")
  {
    if n >= 10 {
      NoLeadingZero(n / 10);
    }
  }

  lemma {:induction false} LowerCase(n: nat)
    ensures var s := Digits(n, 16);
      && s != [] && (forall i :: 0 <= i < |s| ==> s[i] in "0123456789abcdef")
      && (n > 0 ==> s[0] != '0')
    decreases n
  {
    if n >= 16 {
      LowerCase(Quot(n, 16));
    }
  }

  /** Distinct cells have distinct names. */
  lemma HexInjective(a: nat, b: nat)
    ensures Digits(a, 16) == Digits(b, 16) ==> a == b
  {
    DigitsRoundTrip(a, 16);
    DigitsRoundTrip(b, 16);
  }

  function Abs(x: real): real {
    if x < 0.0 then -x else x
  }
}
