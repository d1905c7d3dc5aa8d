/** Decimal text of machine integers as the shell uses it: `str::parse::<i32>` (the
    argument of `exit`), `str::parse::<usize>` (the limit of `history`) and the
    `to_string` of both, which re-encodes a parsed command as arguments. A usize is taken
    to be 64 bits wide. */
module Numbers {
  import opened Util

  const I32_MIN: int := -0x8000_0000
  const I32_MAX: int := 0x7FFF_FFFF
  const USIZE_MAX: int := 0xFFFF_FFFF_FFFF_FFFF

  predicate IsDigit(c: char)
  {
    '0' <= c <= '9'
  }

  predicate AllDigits(s: string)
  {
    forall i :: 0 <= i < |s| ==> IsDigit(s[i])
  }

  function DigitValue(c: char): nat
    requires IsDigit(c)
  {
    c as int - '0' as int
  }

  function DigitChar(d: nat): (c: char)
    requires d < 10
    ensures IsDigit(c) && DigitValue(c) == d
  {
    ('0' as int + d) as char
  }

  /** The number a string of decimal digits denotes (leading zeros allowed). */
  function DigitsValue(s: string): nat
    requires AllDigits(s)
  {
    if s == [] then 0 else DigitsValue(s[..|s| - 1]) * 10 + DigitValue(s[|s| - 1])
  }

  /** `to_string` of a non-negative integer: its digits without leading zeros. */
  function FormatNat(n: nat): (s: string)
    ensures |s| >= 1 && AllDigits(s)
    ensures |s| > 1 ==> s[0] != '0'
  {
    if n < 10 then [DigitChar(n)] else FormatNat(n / 10) + [DigitChar(n % 10)]
  }

  /** `to_string` of an i32: a minus sign for negative values, then the digits. */
  function FormatInt(n: int): (s: string)
    ensures |s| >= 1 && (s[0] == '-' <==> n < 0)
    ensures AllDigits(if n < 0 then s[1..] else s) && |s| > (if n < 0 then 1 else 0)
  {
    if n < 0 then "-" + FormatNat(-n) else FormatNat(n)
  }

  /** `str::parse::<i32>`: an optional `+` or `-`, then one or more decimal digits,
      denoting a value in the range of i32. */
  function ParseI32(s: string): (r: Option<int>)
    ensures r.Some? ==> I32_MIN <= r.value <= I32_MAX
  {
    if s == [] || ((s[0] == '+' || s[0] == '-') && |s| == 1) then None
    else
      var digits := if s[0] == '+' || s[0] == '-' then s[1..] else s;
      if !AllDigits(digits) then None
      else
        var v: int := if s[0] == '-' then 0 - (DigitsValue(digits) as int) else DigitsValue(digits);
        if I32_MIN <= v <= I32_MAX then Some(v) else None
  }

  /** `str::parse::<usize>`: an optional `+`, then one or more decimal digits, denoting
      a value that fits in 64 bits; a `-` is not accepted. */
  function ParseUsize(s: string): (r: Option<nat>)
    ensures r.Some? ==> r.value <= USIZE_MAX
  {
    if s == [] || ((s[0] == '+' || s[0] == '-') && |s| == 1) then None
    else
      var digits := if s[0] == '+' then s[1..] else s;
      if !AllDigits(digits) then None
      else if DigitsValue(digits) <= USIZE_MAX then Some(DigitsValue(digits)) else None
  }

  lemma {:induction false} FormatNatValue(n: nat)
    ensures DigitsValue(FormatNat(n)) == n
  {
    if n >= 10 {
      var s := FormatNat(n);
      assert s[..|s| - 1] == FormatNat(n / 10);
      FormatNatValue(n / 10);
    }
  }

  /** Re-reading the text an i32 is written as gives back the same i32. */
  lemma ParseFormatI32(n: int)
    requires I32_MIN <= n <= I32_MAX
    ensures ParseI32(FormatInt(n)) == Some(n)
  {
    var s := FormatInt(n);
    if n < 0 {
      FormatNatValue(-n);
      assert s[0] == '-' && |s| > 1;
      assert s[1..] == FormatNat(-n);
      assert 0 - (DigitsValue(s[1..]) as int) == n;
    } else {
      FormatNatValue(n);
      assert IsDigit(s[0]) && s == FormatNat(n);
    }
  }

  /** Re-reading the text a usize is written as gives back the same usize. */
  lemma ParseFormatUsize(n: nat)
    requires n <= USIZE_MAX
    ensures ParseUsize(FormatNat(n)) == Some(n)
  {
    FormatNatValue(n);
  }
}
