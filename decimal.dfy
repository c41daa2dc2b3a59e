/**
 * Decimal text for integers as Ruby handles it: `Integer#to_s` (the
 * canonical rendering) and `String#to_i` with base 10 (the lenient reader).
 * The schedule commands use them to send a delay as a string, to read the
 * history page size and to tell an epoch literal from a date.
 */
module Decimal {

  predicate IsDigit(c: char) {
    '0' <= c <= '9'
  }

  predicate AllDigits(s: string) {
    forall i :: 0 <= i < |s| ==> IsDigit(s[i])
  }

  function DigitValue(c: char): (d: nat)
    requires IsDigit(c)
    ensures d < 10
  {
    c as int - '0' as int
  }

  function DigitChar(d: nat): (c: char)
    requires d < 10
    ensures IsDigit(c) && DigitValue(c) == d
  {
    (d + '0' as int) as char
  }

  /** The value of a string of decimal digits, most significant first. */
  function DigitsValue(d: string): nat
    requires AllDigits(d)
  {
    if |d| == 0 then 0 else DigitsValue(d[..|d| - 1]) * 10 + DigitValue(d[|d| - 1])
  }

  /** `Integer#to_s` for a non-negative integer. */
  function NatToString(n: nat): (s: string)
    ensures |s| > 0 && AllDigits(s)
  {
    if n < 10 then [DigitChar(n)] else NatToString(n / 10) + [DigitChar(n % 10)]
  }

  /** `Integer#to_s`: an optional minus sign followed by the digits of the magnitude. */
  function IntToString(i: int): string {
    if i < 0 then "-" + NatToString(-i) else NatToString(i)
  }

  /** A decimal numeral without superfluous leading zeros. */
  predicate IsNumeral(d: string) {
    |d| > 0 && AllDigits(d) && (d[0] == '0' ==> |d| == 1)
  }

  /** What `Integer#to_s` can produce: "0", or an optional '-' and digits with a nonzero lead. */
  predicate IsCanonical(s: string) {
    IsNumeral(s) || (|s| > 1 && s[0] == '-' && IsNumeral(s[1..]) && s[1] != '0')
  }

  // ---------------------------------------------------------------------
  // String#to_i (base 10)
  // ---------------------------------------------------------------------

  /** Ruby's ISSPACE: space, tab, newline, vertical tab, form feed, carriage return. */
  predicate IsSpace(c: char) {
    c == ' ' || c == '\t' || c == '\n' || c == '\U{B}' || c == '\U{C}' || c == '\r'
  }

  function SkipSpaces(s: string): (t: string)
    ensures |t| <= |s| && t == s[|s| - |t|..]
    ensures |t| == 0 || !IsSpace(t[0])
  {
    if |s| > 0 && IsSpace(s[0]) then SkipSpaces(s[1..]) else s
  }

  /** Digits after the first one: a single '_' between two digits is skipped; anything else ends the number. */
  function ScanMoreDigits(s: string): (d: string)
    ensures AllDigits(d)
  {
    if |s| == 0 then []
    else if IsDigit(s[0]) then [s[0]] + ScanMoreDigits(s[1..])
    else if s[0] == '_' && |s| > 1 && IsDigit(s[1]) then [s[1]] + ScanMoreDigits(s[2..])
    else []
  }

  /** The digits of the number at the head of `s`: none unless `s` starts with a digit. */
  function ScanDigits(s: string): (d: string)
    ensures AllDigits(d)
  {
    if |s| > 0 && IsDigit(s[0]) then [s[0]] + ScanMoreDigits(s[1..]) else []
  }

  /** Drops a "0d" / "0D" radix prefix, which base 10 accepts. */
  function DropRadixPrefix(s: string): string {
    if |s| >= 2 && s[0] == '0' && (s[1] == 'd' || s[1] == 'D') then s[2..] else s
  }

  /**
   * `String#to_i`: leading white space, at most one sign, an optional radix
   * prefix, then the longest number at the head; 0 when there is none.
   */
  function ToI(s: string): int {
    var t := SkipSpaces(s);
    var negative := |t| > 0 && t[0] == '-';
    var u := if |t| > 0 && (t[0] == '-' || t[0] == '+') then t[1..] else t;
    var n: int := DigitsValue(ScanDigits(DropRadixPrefix(u)));
    if negative then -n else n
  }

  // ---------------------------------------------------------------------
  // Lemmas
  // ---------------------------------------------------------------------

  lemma DigitsValueSnoc(d: string, c: char)
    requires AllDigits(d) && IsDigit(c)
    ensures AllDigits(d + [c]) && DigitsValue(d + [c]) == DigitsValue(d) * 10 + DigitValue(c)
  {
    assert (d + [c])[..|d|] == d;
  }

  /** Reading back what `Integer#to_s` wrote gives the number again. */
  lemma {:induction false} NatToStringValue(n: nat)
    ensures DigitsValue(NatToString(n)) == n
  {
    if n >= 10 {
      NatToStringValue(n / 10);
      DigitsValueSnoc(NatToString(n / 10), DigitChar(n % 10));
    }
  }

  /** `Integer#to_s` of a natural number never has a superfluous leading zero. */
  lemma {:induction false} NatToStringIsNumeral(n: nat)
    ensures IsNumeral(NatToString(n))
    ensures n > 0 ==> NatToString(n)[0] != '0'
  {
    if n >= 10 {
      NatToStringIsNumeral(n / 10);
    }
  }

  /** A run of digits scans as itself. */
  lemma {:induction false} ScanAllDigits(d: string)
    requires AllDigits(d)
    ensures ScanMoreDigits(d) == d
    ensures ScanDigits(d) == d
  {
    if |d| > 0 {
      ScanAllDigits(d[1..]);
      assert [d[0]] + d[1..] == d;
    }
  }

  /**
   * Text that cannot continue a number: empty, or starting with neither a
   * digit, nor '_', nor the 'd' / 'D' of a "0d" prefix.
   */
  predicate EndsNumber(t: string) {
    |t| == 0 || !(IsDigit(t[0]) || t[0] == '_' || t[0] == 'd' || t[0] == 'D')
  }

  /** Scanning stops at the end of a run of digits when what follows cannot continue it. */
  lemma {:induction false} ScanStops(d: string, t: string)
    requires AllDigits(d) && EndsNumber(t)
    ensures ScanMoreDigits(d + t) == d
    ensures ScanDigits(d + t) == d
  {
    if |d| == 0 {
      assert d + t == t;
    } else {
      ScanStops(d[1..], t);
      assert (d + t)[1..] == d[1..] + t;
      assert [d[0]] + d[1..] == d;
    }
  }

  /** A numeral with a nonzero lead has a positive value. */
  lemma {:induction false} NumeralPositive(d: string)
    requires |d| > 0 && AllDigits(d) && d[0] != '0'
    ensures DigitsValue(d) > 0
  {
    if |d| > 1 {
      NumeralPositive(d[..|d| - 1]);
    }
  }

  /** Writing the value of a numeral gives the numeral back. */
  lemma {:induction false} NumeralRoundTrip(d: string)
    requires IsNumeral(d)
    ensures NatToString(DigitsValue(d)) == d
  {
    var n := DigitsValue(d);
    if |d| > 1 {
      var init := d[..|d| - 1];
      NumeralPositive(init);
      NumeralRoundTrip(init);
      assert n / 10 == DigitsValue(init) && n % 10 == DigitValue(d[|d| - 1]);
      assert init + [d[|d| - 1]] == d;
    } else {
      assert d[..0] == [] && DigitsValue(d[..0]) == 0;
      assert n == DigitValue(d[0]);
      assert [DigitChar(n)] == d;
    }
  }

  /** `String#to_i` reads a numeral as written. */
  lemma ToIOfUnsigned(d: string)
    requires IsNumeral(d)
    ensures ToI(d) == DigitsValue(d)
  {
    ScanAllDigits(d);
    assert !IsSpace(d[0]) && d[0] != '-' && d[0] != '+';
    assert SkipSpaces(d) == d;
    assert DropRadixPrefix(d) == d;
  }

  /** `String#to_i` reads a minus sign before a numeral as the negated value. */
  lemma ToIOfNegated(d: string)
    requires IsNumeral(d)
    ensures ToI("-" + d) == -(DigitsValue(d) as int)
  {
    var m := "-" + d;
    ScanAllDigits(d);
    assert !IsSpace(m[0]);
    assert SkipSpaces(m) == m;
    assert m[1..] == d;
    assert DropRadixPrefix(d) == d;
  }

  /** `String#to_i` reads a numeral, and a minus sign before it, as written. */
  lemma ToIOfNumeral(d: string)
    requires IsNumeral(d)
    ensures ToI(d) == DigitsValue(d)
    ensures ToI("-" + d) == -(DigitsValue(d) as int)
  {
    ToIOfUnsigned(d);
    ToIOfNegated(d);
  }

  /** `String#to_i` stops at text that cannot continue the number: a numeral followed by it reads as the numeral. */
  lemma ToIOfUnsignedThen(d: string, t: string)
    requires IsNumeral(d) && EndsNumber(t)
    ensures ToI(d + t) == DigitsValue(d)
  {
    var m := d + t;
    ScanStops(d, t);
    assert m[0] == d[0] && !IsSpace(m[0]) && m[0] != '-' && m[0] != '+';
    assert SkipSpaces(m) == m;
    assert |m| >= 2 && m[0] == '0' ==> d == "0" && m[1] == t[0];
    assert DropRadixPrefix(m) == m;
  }

  /** The same with a minus sign in front. */
  lemma ToIOfNegatedThen(d: string, t: string)
    requires IsNumeral(d) && EndsNumber(t)
    ensures ToI("-" + d + t) == -(DigitsValue(d) as int)
  {
    var m := "-" + d + t;
    ScanStops(d, t);
    assert !IsSpace(m[0]);
    assert SkipSpaces(m) == m;
    assert m[1..] == d + t;
    assert |d + t| >= 2 && (d + t)[0] == '0' ==> d == "0" && (d + t)[1] == t[0];
    assert DropRadixPrefix(d + t) == d + t;
  }

  /**
   * `String#to_i` reads what `Integer#to_s` wrote back as the same integer,
   * also when text that cannot continue the number follows it.
   */
  lemma IntToStringThen(i: int, t: string)
    requires EndsNumber(t)
    ensures ToI(IntToString(i) + t) == i
  {
    var m: nat := if i < 0 then -i else i;
    var d := NatToString(m);
    NatToStringIsNumeral(m);
    NatToStringValue(m);
    if i < 0 {
      ToIOfNegatedThen(d, t);
    } else {
      ToIOfUnsignedThen(d, t);
    }
  }

  /** `Integer#to_s` is canonical and `String#to_i` reads it back exactly. */
  lemma IntToStringRoundTrip(i: int)
    ensures IsCanonical(IntToString(i))
    ensures ToI(IntToString(i)) == i
  {
    var m: nat := if i < 0 then -i else i;
    var d := NatToString(m);
    NatToStringIsNumeral(m);
    NatToStringValue(m);
    ToIOfNumeral(d);
    if i < 0 {
      assert IntToString(i)[1..] == d;
    }
  }

  /** `String#to_i` reads a canonical string as the number it denotes. */
  lemma CanonicalRoundTrip(s: string)
    requires IsCanonical(s)
    ensures IntToString(ToI(s)) == s
  {
    if IsNumeral(s) {
      ToIOfNumeral(s);
      NumeralRoundTrip(s);
    } else {
      var d := s[1..];
      assert "-" + d == s;
      ToIOfNumeral(d);
      NumeralRoundTrip(d);
      NumeralPositive(d);
    }
  }

  /**
   * The test `s.to_i.to_s == s` holds exactly for canonical strings:
   * "0", or an optional '-' followed by digits with a nonzero lead.
   */
  lemma RoundTripIffCanonical(s: string)
    ensures IntToString(ToI(s)) == s <==> IsCanonical(s)
  {
    if IsCanonical(s) {
      CanonicalRoundTrip(s);
    } else {
      IntToStringRoundTrip(ToI(s));
    }
  }
}
