/**
 Decimal text of integers, as printed by `strconv.FormatInt(_, 10)` and `%d` and
 read back by `strconv.Atoi`.
 */
module Decimals {
  import opened Results

  const INT64_MIN: int := -0x8000_0000_0000_0000
  const INT64_MAX: int := 0x7fff_ffff_ffff_ffff

  predicate IsDigit(c: char) { '0' <= c <= '9' }

  predicate AllDigits(s: string) { forall i :: 0 <= i < |s| ==> IsDigit(s[i]) }

  function DigitChar(d: nat): (c: char)
    requires d < 10
    ensures IsDigit(c) && DigitValue(c) == d
  {
    ('0' as int + d) as char
  }

  function DigitValue(c: char): (d: nat)
    requires IsDigit(c)
    ensures d < 10
  {
    (c as int) - ('0' as int)
  }

  function FormatNat(n: nat): (s: string)
    ensures |s| > 0 && AllDigits(s)
  {
    if n < 10 then [DigitChar(n)] else FormatNat(n / 10) + [DigitChar(n % 10)]
  }

  function FormatInt(n: int): (s: string)
    ensures |s| > 0
    ensures forall i :: 0 <= i < |s| ==> IsDigit(s[i]) || s[i] == '-'
  {
    if n < 0 then "-" + FormatNat(-n) else FormatNat(n)
  }

  function ParseDigits(s: string): (n: nat)
    requires AllDigits(s)
  {
    if s == "" then 0 else 10 * ParseDigits(s[..|s| - 1]) + DigitValue(s[|s| - 1])
  }

  /** `strconv.Atoi`: an optional sign, at least one digit, and a 64-bit range check. */
  function Atoi(s: string): Result<int, string> {
    var negative := |s| > 0 && s[0] == '-';
    var digits := if |s| > 0 && (s[0] == '-' || s[0] == '+') then s[1..] else s;
    if digits == "" || !AllDigits(digits) then Err("invalid syntax")
    else
      var n: int := if negative then 0 - ParseDigits(digits) else ParseDigits(digits);
      if INT64_MIN <= n <= INT64_MAX then Ok(n) else Err("value out of range")
  }

  lemma {:induction false} ParseFormatNat(n: nat)
    ensures ParseDigits(FormatNat(n)) == n
  {
    var s := FormatNat(n);
    if n < 10 {
      assert s[..|s| - 1] == "";
    } else {
      ParseFormatNat(n / 10);
      assert s[..|s| - 1] == FormatNat(n / 10);
    }
  }

  /** Printing an int64 and parsing it back is the identity. */
  lemma AtoiFormatInt(n: int)
    requires INT64_MIN <= n <= INT64_MAX
    ensures Atoi(FormatInt(n)) == Ok(n)
  {
    if n < 0 {
      ParseFormatNat(-n);
      assert FormatInt(n)[1..] == FormatNat(-n);
    } else {
      ParseFormatNat(n);
      assert IsDigit(FormatInt(n)[0]);
    }
  }

  lemma SignOfFormatInt(n: int)
    ensures FormatInt(n)[0] == '-' <==> n < 0
    ensures n < 0 ==> FormatInt(n)[1..] == FormatNat(-n)
  {
    assert n >= 0 ==> IsDigit(FormatInt(n)[0]);
  }

  lemma FormatIntInjective(m: int, n: int)
    requires FormatInt(m) == FormatInt(n)
    ensures m == n
  {
    SignOfFormatInt(m);
    SignOfFormatInt(n);
    if m < 0 {
      ParseFormatNat(-m);
      ParseFormatNat(-n);
    } else {
      ParseFormatNat(m);
      ParseFormatNat(n);
    }
  }
}
