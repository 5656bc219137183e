/**
 * The few pieces of the Python runtime that the Metis configuration and
 * URL helpers rely on: ASCII upper-casing (`str.upper`), stripping leading
 * slashes (`str.lstrip("/")`), decimal formatting of integers (`str(int)`)
 * and decimal parsing (`int(str)`), restricted to ASCII digits, with the
 * failure that `int()` raises made explicit as `None`.
 */
module Builtins {

  datatype Option<T> = None | Some(value: T)

  datatype Result<T, E> = Ok(value: T) | Err(error: E)

  /** The process environment (`os.environ`): variable name to value. */
  type Env = map<string, string>

  // ---------------------------------------------------------------------
  // str.upper, on ASCII letters

  predicate IsAsciiLower(c: char) {
    'a' <= c <= 'z'
  }

  function UpperChar(c: char): char {
    if IsAsciiLower(c) then (c as int - 32) as char else c
  }

  /** `s.upper()`: every ASCII lower-case letter replaced by its capital. */
  function Upper(s: string): (r: string)
    ensures |r| == |s|
    ensures forall i :: 0 <= i < |s| ==> r[i] == UpperChar(s[i])
  {
    seq(|s|, i requires 0 <= i < |s| => UpperChar(s[i]))
  }

  /** Upper-casing leaves no lower-case letter behind and is idempotent. */
  lemma UpperIdempotent(s: string)
    ensures forall i :: 0 <= i < |Upper(s)| ==> !IsAsciiLower(Upper(s)[i])
    ensures Upper(Upper(s)) == Upper(s)
  {
  }

  // ---------------------------------------------------------------------
  // str.lstrip("/")

  /** `s.lstrip("/")`: drops the longest prefix of `s` made only of '/'. */
  function LStripSlashes(s: string): (r: string)
    ensures |r| <= |s| && r == s[|s| - |r|..]
    ensures forall i :: 0 <= i < |s| - |r| ==> s[i] == '/'
    ensures r == [] || r[0] != '/'
  {
    if |s| > 0 && s[0] == '/' then LStripSlashes(s[1..]) else s
  }

  /** Any number of extra leading slashes is stripped away as well. */
  lemma {:induction false} LStripSlashesPrefix(slashes: string, s: string)
    requires forall i :: 0 <= i < |slashes| ==> slashes[i] == '/'
    ensures LStripSlashes(slashes + s) == LStripSlashes(s)
  {
    if slashes == [] {
      assert slashes + s == s;
    } else {
      assert (slashes + s)[0] == '/';
      assert (slashes + s)[1..] == slashes[1..] + s;
      LStripSlashesPrefix(slashes[1..], s);
    }
  }

  /** Stripping twice is stripping once. */
  lemma LStripSlashesIdempotent(s: string)
    ensures LStripSlashes(LStripSlashes(s)) == LStripSlashes(s)
  {
  }

  // ---------------------------------------------------------------------
  // str(int) and int(str), on ASCII decimal digits

  predicate IsDigit(c: char) {
    '0' <= c <= '9'
  }

  predicate AllDigits(s: string) {
    forall i :: 0 <= i < |s| ==> IsDigit(s[i])
  }

  function DigitChar(d: nat): (c: char)
    requires d < 10
    ensures IsDigit(c)
  {
    ('0' as int + d) as char
  }

  function DigitValue(c: char): (d: nat)
    requires IsDigit(c)
    ensures d < 10 && DigitChar(d) == c
  {
    c as int - '0' as int
  }

  /** The number a string of decimal digits denotes, most significant first. */
  function DigitsValue(s: string): nat
    requires AllDigits(s)
  {
    if s == [] then 0 else DigitsValue(s[..|s| - 1]) * 10 + DigitValue(s[|s| - 1])
  }

  /** `int(s)` on a string of ASCII digits; `None` where `int()` would raise. */
  function ParseDecimal(s: string): (r: Option<nat>)
    ensures r.Some? <==> |s| > 0 && AllDigits(s)
  {
    if |s| > 0 && AllDigits(s) then Some(DigitsValue(s)) else None
  }

  /** `str(n)` for a natural number: its shortest decimal spelling. */
  function NatToDecimal(n: nat): (r: string)
    ensures |r| > 0 && AllDigits(r)
    ensures r[0] == '0' ==> n == 0
  {
    if n < 10 then [DigitChar(n)] else NatToDecimal(n / 10) + [DigitChar(n % 10)]
  }

  /** `str(n)` for any integer: a minus sign before negative numbers. */
  function IntToDecimal(n: int): (r: string)
    ensures |r| > 0
    ensures n >= 0 <==> IsDigit(r[0])
  {
    if n < 0 then "-" + NatToDecimal(-n) else NatToDecimal(n)
  }

  /** A leading zero does not change the number a digit string denotes. */
  lemma {:induction false} DigitsValueLeadingZero(s: string)
    requires AllDigits(s)
    ensures AllDigits("0" + s) && DigitsValue("0" + s) == DigitsValue(s)
  {
    var t := "0" + s;
    if s == [] {
      assert t[..|t| - 1] == [];
    } else {
      DigitsValueLeadingZero(s[..|s| - 1]);
      assert t[..|t| - 1] == "0" + s[..|s| - 1];
    }
  }

  /** Any run of leading zeros does not change the number either. */
  lemma {:induction false} DigitsValueLeadingZeros(zeros: string, s: string)
    requires forall i :: 0 <= i < |zeros| ==> zeros[i] == '0'
    requires AllDigits(s)
    ensures AllDigits(zeros + s) && DigitsValue(zeros + s) == DigitsValue(s)
  {
    if zeros != [] {
      DigitsValueLeadingZeros(zeros[1..], s);
      var rest := zeros[1..] + s;
      DigitsValueLeadingZero(rest);
      assert zeros[0] == '0';
      assert zeros + s == "0" + rest;
    } else {
      assert zeros + s == s;
    }
  }

  lemma {:induction false} DigitsValueOfDecimal(n: nat)
    ensures DigitsValue(NatToDecimal(n)) == n
  {
    var s := NatToDecimal(n);
    if n >= 10 {
      DigitsValueOfDecimal(n / 10);
      assert s[..|s| - 1] == NatToDecimal(n / 10);
    }
  }

  /** Parsing what `str` printed gives the number back. */
  lemma ParseDecimalRoundTrip(n: nat)
    ensures ParseDecimal(NatToDecimal(n)) == Some(n)
  {
    DigitsValueOfDecimal(n);
  }

  /** `int()` reads a number spelled with leading zeros as the number itself:
      `int("08011") == 8011`. */
  lemma ParseDecimalLeadingZeros(zeros: string, n: nat)
    requires forall i :: 0 <= i < |zeros| ==> zeros[i] == '0'
    ensures ParseDecimal(zeros + NatToDecimal(n)) == Some(n)
  {
    DigitsValueOfDecimal(n);
    DigitsValueLeadingZeros(zeros, NatToDecimal(n));
  }

  /** Distinct integers are printed differently. */
  lemma IntToDecimalInjective(m: int, n: int)
    requires IntToDecimal(m) == IntToDecimal(n)
    ensures m == n
  {
    if m >= 0 && n >= 0 {
      ParseDecimalRoundTrip(m);
      ParseDecimalRoundTrip(n);
    } else if m < 0 && n < 0 {
      assert NatToDecimal(-m) == IntToDecimal(m)[1..];
      assert NatToDecimal(-n) == IntToDecimal(n)[1..];
      ParseDecimalRoundTrip(-m);
      ParseDecimalRoundTrip(-n);
    }
  }
}
