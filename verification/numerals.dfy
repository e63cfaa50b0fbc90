/**
 Swift's `Int(_: String)` initializer and the decimal rendering `String(n)`, for
 the 64-bit `Int` of the target platform.
 */
module Numerals {
  import opened Wrappers

  const IntMin: int := -0x8000_0000_0000_0000
  const IntMax: int := 0x7FFF_FFFF_FFFF_FFFF

  predicate IsDigit(c: char) { '0' <= c <= '9' }

  predicate AllDigits(s: string) {
    forall i :: 0 <= i < |s| ==> IsDigit(s[i])
  }

  function DigitValue(c: char): nat
    requires IsDigit(c)
  {
    c as int - '0' as int
  }

  function DigitChar(d: nat): char
    requires d < 10
  {
    ('0' as int + d) as char
  }

  /** The value of a run of decimal digits, most significant first. */
  function DigitsValue(s: string): nat
    requires AllDigits(s)
    decreases |s|
  {
    if |s| == 0 then 0 else DigitsValue(s[..|s| - 1]) * 10 + DigitValue(s[|s| - 1])
  }

  /** The text an `Int` initializer accepts: an optional sign, then at least one ASCII digit. */
  predicate IsNumeral(s: string) {
    if |s| > 0 && (s[0] == '+' || s[0] == '-') then |s| > 1 && AllDigits(s[1..])
    else |s| > 0 && AllDigits(s)
  }

  /** The value a numeral denotes: its digits' value, negated after a minus sign. */
  function SignedValue(s: string): int
    requires IsNumeral(s)
  {
    var magnitude: int := if s[0] == '-' || s[0] == '+' then DigitsValue(s[1..]) else DigitsValue(s);
    if s[0] == '-' then -magnitude else magnitude
  }

  /**
   `Int(s)`: nil unless `s` is a numeral whose value lies in the 64-bit range.
   No whitespace, no thousands separators, no other radix.
   */
  function ParseInt(s: string): (r: Option<int>)
    ensures r.Some? <==> IsNumeral(s) && IntMin <= SignedValue(s) <= IntMax
    ensures r.Some? ==> r.value == SignedValue(s)
    ensures r.Some? ==> IntMin <= r.value <= IntMax
    ensures r.Some? && |s| > 0 && s[0] == '-' ==> r.value <= 0
    ensures r.Some? && |s| > 0 && s[0] != '-' ==> r.value >= 0
  {
    var signed := |s| > 0 && (s[0] == '+' || s[0] == '-');
    var digits := if signed then s[1..] else s;
    if |digits| == 0 || !AllDigits(digits) then None
    else
      var magnitude: int := DigitsValue(digits);
      var v: int := if signed && s[0] == '-' then -magnitude else magnitude;
      if IntMin <= v <= IntMax then Some(v) else None
  }

  /** `Int(s) ?? fallback`. */
  function ParseOr(s: string, fallback: int): (r: int)
    ensures ParseInt(s).None? ==> r == fallback
    ensures ParseInt(s).Some? ==> r == ParseInt(s).value
  {
    ParseInt(s).GetOr(fallback)
  }

  /** Decimal digits of a natural number, without leading zeros. */
  function ShowNat(n: nat): (r: string)
    ensures |r| > 0 && AllDigits(r)
    ensures |r| > 1 ==> r[0] != '0'
    decreases n
  {
    if n < 10 then [DigitChar(n)]
    else
      var head := ShowNat(n / 10);
      assert head[0] == (head + [DigitChar(n % 10)])[0];
      head + [DigitChar(n % 10)]
  }

  /** `String(n)`: the decimal rendering of an integer. */
  function Show(n: int): string {
    if n < 0 then "-" + ShowNat(-n) else ShowNat(n)
  }

  lemma {:induction false} DigitsValueOfShowNat(n: nat)
    ensures DigitsValue(ShowNat(n)) == n
    decreases n
  {
    if n >= 10 {
      DigitsValueOfShowNat(n / 10);
      var s := ShowNat(n);
      assert s[..|s| - 1] == ShowNat(n / 10);
    }
  }

  /** Parsing the rendering of any 64-bit integer gives that integer back. */
  lemma ParseShow(n: int)
    requires IntMin <= n <= IntMax
    ensures ParseInt(Show(n)) == Some(n)
  {
    if n < 0 {
      DigitsValueOfShowNat(-n);
      assert Show(n)[1..] == ShowNat(-n);
    } else {
      DigitsValueOfShowNat(n);
    }
  }

  /**
   A sign and leading zeros are accepted, and a numeral outside the 64-bit range
   is rejected like any other text.
   */
  lemma ParseExamples()
    ensures ParseInt("+15") == Some(15)
    ensures ParseInt("007") == Some(7)
    ensures ParseInt("-0") == Some(0)
    ensures ParseInt(" 7") == None
  {
    assert "+15"[1..] == "15" && "15"[..1] == "1" && "1"[..0] == "";
    assert DigitsValue("15") == 15;
    assert "007"[..2] == "00" && "00"[..1] == "0";
    assert "-0"[1..] == "0";
    assert !IsDigit(" 7"[0]);
  }

  /** The decimal text of a value beyond the 64-bit range is a numeral, yet `Int` rejects it. */
  lemma OutOfRangeRejected(n: int)
    requires n > IntMax || n < IntMin
    ensures IsNumeral(Show(n)) && ParseInt(Show(n)) == None
  {
    if n < 0 {
      DigitsValueOfShowNat(-n);
      assert Show(n)[1..] == ShowNat(-n);
    } else {
      DigitsValueOfShowNat(n);
    }
  }

  /** Text that is not a numeral always falls back. */
  lemma ParseOrNonNumeral(s: string, fallback: int)
    requires !IsNumeral(s)
    ensures ParseOr(s, fallback) == fallback
  {
  }
}
