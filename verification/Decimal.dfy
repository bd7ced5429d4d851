/** Decimal numbers as std::to_string prints them and as StrToInt of services/utils/uri_helper.cpp reads
    them.
 */
module Decimal {
  import opened Wrappers

  const INT32_MIN: int := -0x8000_0000
  const INT32_MAX: int := 0x7fff_ffff
  const INT64_MIN: int := -0x8000_0000_0000_0000
  const INT64_MAX: int := 0x7fff_ffff_ffff_ffff

  predicate Int32(n: int) {
    INT32_MIN <= n <= INT32_MAX
  }

  predicate Int64(n: int) {
    INT64_MIN <= n <= INT64_MAX
  }

  predicate IsDigit(c: char) {
    '0' <= c <= '9'
  }

  predicate AllDigits(s: string) {
    forall i :: 0 <= i < |s| ==> IsDigit(s[i])
  }

  function DigitChar(d: nat): char
    requires d < 10
  {
    ('0' as int + d) as char
  }

  function DigitValue(c: char): nat
    requires IsDigit(c)
  {
    c as int - '0' as int
  }

  function PrintNat(n: nat): (s: string)
    ensures |s| >= 1
  {
    if n < 10 then [DigitChar(n)] else PrintNat(n / 10) + [DigitChar(n % 10)]
  }

  function Abs(n: int): nat {
    if n < 0 then -n else n
  }

  function Signed(neg: bool, m: nat): int {
    var n: int := m;
    if neg then -n else n
  }

  /** std::to_string. */
  function Print(n: int): string {
    (if n < 0 then "-" else "") + PrintNat(Abs(n))
  }

  function Value(digits: string): nat
    requires AllDigits(digits)
  {
    if digits == "" then 0
    else 10 * Value(digits[..|digits| - 1]) + DigitValue(digits[|digits| - 1])
  }

  /** What a C string function sees of the characters. */
  function CString(s: string): (c: string)
    ensures c <= s && (forall i :: 0 <= i < |c| ==> c[i] != '\0') && (|c| < |s| ==> s[|c|] == '\0')
  {
    if s == "" || s[0] == '\0' then "" else [s[0]] + CString(s[1..])
  }

  /** The length of the longest run of digits at the front. */
  function DigitRun(s: string): (n: nat)
    ensures n <= |s| && AllDigits(s[..n]) && (n < |s| ==> !IsDigit(s[n]))
  {
    if s == "" || !IsDigit(s[0]) then 0 else 1 + DigitRun(s[1..])
  }

  /** strtoll in base 10 on a string that starts with a digit or '-': the number and how many characters
      it took, none if there was no number; no number either when it does not fit (ERANGE). */
  function Strtoll(c: string): Option<(int, nat)> {
    var neg := c != "" && c[0] == '-';
    var digits := if neg then c[1..] else c;
    var n := DigitRun(digits);
    if n == 0 then None
    else
      var value := Signed(neg, Value(digits[..n]));
      if Int64(value) then Some((value, if neg then n + 1 else n)) else None
  }

  /** StrToInt for the range lo..hi of the type. */
  function StrToInt(s: string, lo: int, hi: int): Option<int> {
    if s == "" || !(IsDigit(s[0]) || s[0] == '-') then None
    else
      var c := CString(s);
      match Strtoll(c)
      case None => None
      case Some(result) =>
        if result.1 == |c| && lo <= result.0 <= hi then Some(result.0) else None
  }

  // ----- the two are inverse -----

  function Zeros(z: nat): string {
    seq(z, _ => '0')
  }

  /** The ways to write a number: an optional sign, leading zeros, then the digits of its print. */
  function Numeral(neg: bool, z: nat, m: nat): string {
    (if neg then "-" else "") + (Zeros(z) + PrintNat(m))
  }

  lemma {:induction false} ZerosWorthNothing(z: nat)
    ensures AllDigits(Zeros(z)) && Value(Zeros(z)) == 0
  {
    if z > 0 {
      ZerosWorthNothing(z - 1);
      assert Zeros(z)[..z - 1] == Zeros(z - 1);
    }
  }

  lemma ValueLast(front: string, c: char)
    requires AllDigits(front) && IsDigit(c)
    ensures AllDigits(front + [c]) && Value(front + [c]) == 10 * Value(front) + DigitValue(c)
  {
    assert (front + [c])[..|front|] == front;
  }

  lemma {:induction false} NumeralValue(z: nat, m: nat)
    ensures AllDigits(Zeros(z) + PrintNat(m)) && Value(Zeros(z) + PrintNat(m)) == m
  {
    if m < 10 {
      ZerosWorthNothing(z);
      ValueLast(Zeros(z), DigitChar(m));
    } else {
      NumeralValue(z, m / 10);
      ValueLast(Zeros(z) + PrintNat(m / 10), DigitChar(m % 10));
      assert Zeros(z) + PrintNat(m) == Zeros(z) + PrintNat(m / 10) + [DigitChar(m % 10)];
    }
  }

  lemma NumeralLast(z: nat, m: nat, d: nat)
    requires d < 10 && m > 0
    ensures Zeros(z) + PrintNat(10 * m + d) == Zeros(z) + PrintNat(m) + [DigitChar(d)]
  {
    assert (10 * m + d) / 10 == m && (10 * m + d) % 10 == d;
  }

  lemma NumeralZero(z: nat, d: nat)
    requires d < 10
    ensures Zeros(z + 1) + PrintNat(d) == Zeros(z) + PrintNat(0) + [DigitChar(d)]
  {
  }

  /** One more digit behind a numeral is a numeral. */
  lemma NumeralGrows(z: nat, m: nat, d: nat) returns (z1: nat)
    requires d < 10
    ensures Zeros(z1) + PrintNat(10 * m + d) == Zeros(z) + PrintNat(m) + [DigitChar(d)]
  {
    if m == 0 {
      z1 := z + 1;
      NumeralZero(z, d);
    } else {
      z1 := z;
      NumeralLast(z, m, d);
    }
  }

  lemma DigitAppended(front: string, c: char, z: nat) returns (z1: nat)
    requires AllDigits(front) && IsDigit(c) && front == Zeros(z) + PrintNat(Value(front))
    ensures AllDigits(front + [c]) && front + [c] == Zeros(z1) + PrintNat(Value(front + [c]))
  {
    ValueLast(front, c);
    z1 := NumeralGrows(z, Value(front), DigitValue(c));
    assert DigitChar(DigitValue(c)) == c;
  }

  /** Any string of digits is the print of its value behind zeros. */
  lemma {:induction false} DigitsAreNumeral(digits: string) returns (z: nat)
    requires digits != "" && AllDigits(digits)
    ensures digits == Zeros(z) + PrintNat(Value(digits))
  {
    var n := |digits| - 1;
    var front, c := digits[..n], digits[n];
    assert digits == front + [c];
    if n == 0 {
      z := 0;
      assert digits == [c] && DigitChar(DigitValue(c)) == c;
    } else {
      var z0 := DigitsAreNumeral(front);
      z := DigitAppended(front, c, z0);
    }
  }

  lemma {:induction false} RunOfDigits(digits: string)
    requires AllDigits(digits)
    ensures DigitRun(digits) == |digits|
  {
    if digits != "" {
      RunOfDigits(digits[1..]);
    }
  }

  lemma StrtollDigits(neg: bool, digits: string)
    requires digits != "" && AllDigits(digits) && Int64(Signed(neg, Value(digits)))
    ensures var c := (if neg then "-" else "") + digits;
            Strtoll(c) == Some((Signed(neg, Value(digits)), |c|))
  {
    var c := (if neg then "-" else "") + digits;
    RunOfDigits(digits);
    assert (if neg then c[1..] else c) == digits;
    assert digits[..|digits|] == digits;
  }

  lemma StrtollNumeral(neg: bool, z: nat, m: nat)
    requires Int64(Signed(neg, m))
    ensures var c := Numeral(neg, z, m);
            && Strtoll(c) == Some((Signed(neg, m), |c|))
            && (IsDigit(c[0]) || c[0] == '-') && forall i :: 0 <= i < |c| ==> c[i] != '\0'
  {
    NumeralValue(z, m);
    StrtollDigits(neg, Zeros(z) + PrintNat(m));
    NumeralChars(neg, z, m);
  }

  lemma NumeralChars(neg: bool, z: nat, m: nat)
    ensures var c := Numeral(neg, z, m);
            forall i :: 0 <= i < |c| ==> IsDigit(c[i]) || (i == 0 && c[i] == '-')
  {
    NumeralValue(z, m);
    var digits := Zeros(z) + PrintNat(m);
    assert forall i :: 0 <= i < |digits| ==> IsDigit(digits[i]);
  }

  /** `c` writes `v`: its digits behind any number of zeros, with its sign, which is free for zero. */
  ghost predicate Writes(c: string, v: int) {
    exists neg, z :: c == Numeral(neg, z, Abs(v)) && Signed(neg, Abs(v)) == v
  }

  lemma ReadMeansWritten(s: string, lo: int, hi: int)
    requires StrToInt(s, lo, hi).Some?
    ensures Writes(CString(s), StrToInt(s, lo, hi).value)
  {
    var c := CString(s);
    var neg := c[0] == '-';
    var digits := if neg then c[1..] else c;
    assert digits[..DigitRun(digits)] == digits;
    var z := DigitsAreNumeral(digits);
    assert c == Numeral(neg, z, Value(digits)) && Abs(Signed(neg, Value(digits))) == Value(digits);
  }

  /** Exactly the writings of a number in range, up to the first NUL, are read as that number. */
  lemma StrToIntExactly(s: string, lo: int, hi: int, v: int)
    requires INT64_MIN <= lo && hi <= INT64_MAX
    ensures StrToInt(s, lo, hi) == Some(v) <==> lo <= v <= hi && Writes(CString(s), v)
  {
    if StrToInt(s, lo, hi) == Some(v) {
      ReadMeansWritten(s, lo, hi);
    }
    if lo <= v <= hi && Writes(CString(s), v) {
      var neg, z :| CString(s) == Numeral(neg, z, Abs(v)) && Signed(neg, Abs(v)) == v;
      StrtollNumeral(neg, z, Abs(v));
    }
  }

  lemma {:induction false} CStringWhole(s: string)
    requires forall i :: 0 <= i < |s| ==> s[i] != '\0'
    ensures CString(s) == s
  {
  }

  /** Reading what was printed gives the number back. */
  lemma PrintRoundTrip(n: int, lo: int, hi: int)
    requires INT64_MIN <= lo <= n <= hi <= INT64_MAX
    ensures StrToInt(Print(n), lo, hi) == Some(n)
  {
    var s := Print(n);
    assert s == Numeral(n < 0, 0, Abs(n));
    StrtollNumeral(n < 0, 0, Abs(n));
    CStringWhole(s);
  }

  /** A printed number is a sign and digits. */
  lemma PrintChars(n: int)
    ensures |Print(n)| >= 1
    ensures forall i :: 0 <= i < |Print(n)| ==> IsDigit(Print(n)[i]) || Print(n)[i] == '-'
  {
    NumeralValue(0, Abs(n));
    assert Zeros(0) + PrintNat(Abs(n)) == PrintNat(Abs(n));
  }
}
