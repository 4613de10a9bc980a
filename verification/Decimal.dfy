// Decimal numerals as the strconv package prints and parses them.

module Decimal {
  import opened Wrappers

  const INT32_MIN: int := -0x8000_0000
  const INT32_MAX: int := 0x7FFF_FFFF
  const INT64_MIN: int := -0x8000_0000_0000_0000
  const INT64_MAX: int := 0x7FFF_FFFF_FFFF_FFFF
  const UINT32_MAX: int := 0xFFFF_FFFF

  predicate IsDigit(c: char)
  {
    '0' <= c <= '9'
  }

  predicate AllDigits(s: string)
  {
    forall i :: 0 <= i < |s| ==> IsDigit(s[i])
  }

  function DigitChar(d: nat): (c: char)
    requires d < 10
    ensures IsDigit(c) && DigitValue(c) == d
  {
    ('0' as int + d) as char
  }

  function DigitValue(c: char): (d: nat)
    requires IsDigit(c)
    ensures d < 10
  {
    c as int - '0' as int
  }

  // The %d rendering of a non-negative number.
  function PrintNat(n: nat): string
  {
    if n < 10 then [DigitChar(n)] else PrintNat(n / 10) + [DigitChar(n % 10)]
  }

  function Value(s: string): nat
    requires AllDigits(s)
  {
    if s == [] then 0 else Value(s[..|s| - 1]) * 10 + DigitValue(s[|s| - 1])
  }

  // No superfluous leading zero.
  predicate Canonical(s: string)
  {
    |s| >= 1 && AllDigits(s) && (|s| > 1 ==> s[0] != '0')
  }

  lemma {:induction false} PrintNatCanonical(n: nat)
    ensures Canonical(PrintNat(n)) && Value(PrintNat(n)) == n
    ensures n > 0 ==> PrintNat(n)[0] != '0'
  {
    if n < 10 {
      assert Value([DigitChar(n)]) == Value([]) * 10 + n by {
        assert [DigitChar(n)][..0] == [];
      }
      assert n > 0 ==> DigitChar(n) != '0';
    } else {
      PrintNatCanonical(n / 10);
      assert PrintNat(n)[..|PrintNat(n)| - 1] == PrintNat(n / 10);
    }
  }

  // A canonical numeral is the print of its own value: print and parse are
  // inverse on the two sides.
  lemma {:induction false} PrintOfValue(s: string)
    requires Canonical(s)
    ensures PrintNat(Value(s)) == s
    ensures s[0] != '0' ==> Value(s) > 0
  {
    if |s| == 1 {
      assert s[..0] == [];
      assert s == [DigitChar(Value(s))];
    } else {
      var init := s[..|s| - 1];
      assert init[0] == s[0];
      PrintOfValue(init);
      assert Value(s) / 10 == Value(init);
      assert s == init + [s[|s| - 1]];
    }
  }

  lemma {:induction false} LeadingZero(s: string)
    requires AllDigits(s)
    ensures AllDigits("0" + s) && Value("0" + s) == Value(s)
  {
    var t := "0" + s;
    if s == [] {
      assert t[..0] == [];
    } else {
      LeadingZero(s[..|s| - 1]);
      assert t[..|t| - 1] == "0" + s[..|s| - 1];
    }
  }

  // strconv.ParseInt(s, 10, bits) and strconv.Atoi, the width given as bounds:
  // an optional sign, at least one digit, and a value inside the bounds.
  function ParseInt(s: string, lo: int, hi: int): Option<int>
  {
    var negative := s != [] && s[0] == '-';
    var digits := if s != [] && (s[0] == '-' || s[0] == '+') then s[1..] else s;
    if digits == [] || !AllDigits(digits) then None
    else
      var magnitude: int := Value(digits);
      var v := if negative then -magnitude else magnitude;
      if lo <= v <= hi then Some(v) else None
  }

  // strconv.ParseUint(s, 10, 32): no sign is accepted.
  function ParseUint(s: string, hi: int): Option<int>
  {
    if s == [] || !AllDigits(s) then None
    else if Value(s) <= hi then Some(Value(s)) else None
  }

  // strconv.FormatInt(v, 10) and strconv.Itoa(v).
  function PrintInt(v: int): string
  {
    if v < 0 then "-" + PrintNat(-v) else PrintNat(v)
  }

  // A rendered integer is never empty and holds only digits and a sign.
  lemma PrintIntChars(v: int)
    ensures |PrintInt(v)| >= 1
    ensures forall i :: 0 <= i < |PrintInt(v)| ==> PrintInt(v)[i] == '-' || IsDigit(PrintInt(v)[i])
  {
    PrintNatCanonical(if v < 0 then -v else v);
  }

  // A numeral: an optional sign and at least one digit.
  predicate Denotes(s: string, v: int)
  {
    || (s != [] && AllDigits(s) && v == Value(s))
    || (|s| > 1 && s[0] == '+' && AllDigits(s[1..]) && v == Value(s[1..]))
    || (|s| > 1 && s[0] == '-' && AllDigits(s[1..]) && -v == Value(s[1..]))
  }

  // What is accepted: numerals with a value inside the bounds, and nothing else.
  lemma ParseIntIff(s: string, lo: int, hi: int, v: int)
    ensures ParseInt(s, lo, hi) == Some(v) <==> Denotes(s, v) && lo <= v <= hi
  {
  }

  // Without a sign.
  lemma ParseUintIff(s: string, hi: int, v: int)
    ensures ParseUint(s, hi) == Some(v) <==> s != [] && AllDigits(s) && v == Value(s) <= hi
  {
  }

  // A magnitude with and without a minus sign.
  lemma ParseDigits(digits: string, lo: int, hi: int)
    requires digits != [] && AllDigits(digits)
    ensures var v: int := Value(digits);
      && ParseInt(digits, lo, hi) == (if lo <= v <= hi then Some(v) else None)
      && ParseInt("-" + digits, lo, hi) == (if lo <= -v <= hi then Some(-v) else None)
  {
    assert IsDigit(digits[0]);
    assert ("-" + digits)[0] == '-' && ("-" + digits)[1..] == digits;
  }

  // The signed round trip, with the range check in both directions.
  lemma ParsePrintInt(v: int, lo: int, hi: int)
    ensures ParseInt(PrintInt(v), lo, hi) == if lo <= v <= hi then Some(v) else None
  {
    var magnitude := if v < 0 then -v else v;
    PrintNatCanonical(magnitude);
    ParseDigits(PrintNat(magnitude), lo, hi);
  }
}
