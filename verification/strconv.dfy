/**
 * Go's `strconv.Atoi` on a 64-bit platform, the parser the query API uses
 * for `limit`, with its inverse `strconv.Itoa` as the partner that shows
 * every in-range integer is read back exactly.
 */
module Strconv {
  import opened Wrappers

  const MinInt64: int := -0x8000_0000_0000_0000
  const MaxInt64: int := 0x7fff_ffff_ffff_ffff

  predicate IsDigit(c: char) {
    '0' <= c <= '9'
  }

  predicate AllDigits(s: string) {
    forall i :: 0 <= i < |s| ==> IsDigit(s[i])
  }

  /** True when `s` is an optional `+` or `-` followed by one or more decimal digits. */
  predicate IsDecimal(s: string) {
    && |s| > 0
    && (IsDigit(s[0]) || ((s[0] == '+' || s[0] == '-') && |s| > 1))
    && AllDigits(s[1..])
  }

  function DigitValue(c: char): (d: nat)
    requires IsDigit(c)
    ensures d < 10
  {
    (c as int) - ('0' as int)
  }

  function DigitChar(d: nat): (c: char)
    requires d < 10
    ensures IsDigit(c) && DigitValue(c) == d
  {
    ('0' as int + d) as char
  }

  /** The value of a string of decimal digits, most significant first. */
  function DigitsValue(s: string): nat
    requires AllDigits(s)
  {
    if s == [] then 0 else DigitsValue(s[..|s| - 1]) * 10 + DigitValue(s[|s| - 1])
  }

  /** The value an `IsDecimal` string denotes: its digits, negated after a `-`. */
  function SignedValue(s: string): int
    requires IsDecimal(s)
  {
    if s[0] == '-' then 0 - DigitsValue(s[1..]) as int
    else if s[0] == '+' then DigitsValue(s[1..])
    else DigitsValue(s)
  }

  /**
   * `strconv.Atoi`: an optional sign and at least one decimal digit, whose
   * value fits in a 64-bit `int`; anything else (the empty string, a lone
   * sign, any other character, an out-of-range value) is an error.
   */
  function Atoi(s: string): (r: Option<int>)
    ensures r.Some? <==> IsDecimal(s) && MinInt64 <= SignedValue(s) <= MaxInt64
    ensures r.Some? ==> r.value == SignedValue(s)
    ensures r.Some? ==> MinInt64 <= r.value <= MaxInt64
  {
    if s == "" then None
    else
      var body := if s[0] == '-' || s[0] == '+' then s[1..] else s;
      if body == "" || !AllDigits(body) then None
      else
        var v: int := if s[0] == '-' then 0 - DigitsValue(body) as int else DigitsValue(body);
        if MinInt64 <= v <= MaxInt64 then Some(v) else None
  }

  /** The decimal digits of `n`, without sign or leading zeros. */
  function NatDigits(n: nat): (s: string)
    ensures |s| > 0 && AllDigits(s)
    ensures DigitsValue(s) == n
    ensures s[0] == '0' ==> n == 0
  {
    if n < 10 then [DigitChar(n)]
    else
      var init := NatDigits(n / 10);
      var s := init + [DigitChar(n % 10)];
      assert s[..|s| - 1] == init;
      s
  }

  /** `strconv.Itoa`. */
  function FormatInt(n: int): (s: string)
    ensures |s| > 0
  {
    if n < 0 then "-" + NatDigits(-n) else NatDigits(n)
  }

  /** Every 64-bit integer survives formatting and parsing back. */
  lemma AtoiFormatInt(n: int)
    requires MinInt64 <= n <= MaxInt64
    ensures Atoi(FormatInt(n)) == Some(n)
  {
    var s := FormatInt(n);
    if n < 0 {
      assert s[1..] == NatDigits(-n);
    } else {
      assert s[0] != '-' && s[0] != '+';
    }
  }

  /** A well-formed number past either end of the 64-bit range is an error, however it is written. */
  lemma AtoiRejectsOutOfRange(s: string)
    requires IsDecimal(s)
    requires SignedValue(s) < MinInt64 || SignedValue(s) > MaxInt64
    ensures Atoi(s) == None
  {
  }

  /** A leading zero does not change the value of a digit string. */
  lemma {:induction false} LeadingZeroValue(s: string)
    requires AllDigits(s)
    ensures AllDigits("0" + s) && DigitsValue("0" + s) == DigitsValue(s)
  {
    if s != [] {
      var init := s[..|s| - 1];
      assert ("0" + s)[..|"0" + s| - 1] == "0" + init;
      LeadingZeroValue(init);
    }
  }

  /** Leading zeros and an explicit `+` are accepted and do not change the value. */
  lemma AtoiIgnoresLeadingZeroAndPlus(s: string)
    requires |s| > 0 && AllDigits(s)
    ensures Atoi("0" + s) == Atoi(s)
    ensures Atoi("+" + s) == Atoi(s)
  {
    LeadingZeroValue(s);
    assert ("0" + s)[1..] == s;
    assert ("+" + s)[1..] == s;
  }
}
