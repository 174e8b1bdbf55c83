/** Decimal rendering of integers (`Integer#to_s`) and its inverse. */
module Decimal {
  import opened Common

  function DigitChar(d: nat): char
    requires d < 10
  {
    ('0' as int + d) as char
  }

  function DigitValue(c: char): Option<nat> {
    if '0' <= c <= '9' then Some(c as int - '0' as int) else None
  }

  function NatToString(n: nat): string
    decreases n
  {
    if n < 10 then [DigitChar(n)] else NatToString(n / 10) + [DigitChar(n % 10)]
  }

  /** `Integer#to_s`: an optional minus sign followed by the decimal digits. */
  function IntToString(n: int): string {
    if n < 0 then "-" + NatToString(-n) else NatToString(n)
  }

  /** Reads a non-empty string of decimal digits. */
  function ParseDigits(s: string): Option<nat>
    decreases |s|
  {
    if |s| == 0 then None
    else match DigitValue(s[|s| - 1])
      case None => None
      case Some(d) =>
        if |s| == 1 then Some(d)
        else match ParseDigits(s[..|s| - 1])
          case None => None
          case Some(p) => Some(p * 10 + d)
  }

  /** Reads an optionally negative decimal integer. */
  function ParseInt(s: string): Option<int> {
    if |s| > 0 && s[0] == '-' then
      match ParseDigits(s[1..])
      case None => None
      case Some(p) => Some(-(p as int))
    else
      match ParseDigits(s)
      case None => None
      case Some(p) => Some(p)
  }

  lemma {:induction false} NatToStringStartsWithDigit(n: nat)
    ensures |NatToString(n)| > 0 && DigitValue(NatToString(n)[0]).Some?
    decreases n
  {
    if n >= 10 {
      NatToStringStartsWithDigit(n / 10);
    }
  }

  lemma {:induction false} NatRoundTrip(n: nat)
    ensures ParseDigits(NatToString(n)) == Some(n)
    decreases n
  {
    if n >= 10 {
      var s := NatToString(n);
      NatToStringStartsWithDigit(n / 10);
      assert s[..|s| - 1] == NatToString(n / 10);
      NatRoundTrip(n / 10);
    }
  }

  /** Reading back what `Integer#to_s` printed gives the original integer. */
  lemma {:induction false} IntRoundTrip(n: int)
    ensures ParseInt(IntToString(n)) == Some(n)
  {
    var s := IntToString(n);
    if n < 0 {
      var digits := NatToString(-n);
      assert s == "-" + digits;
      assert s[0] == '-' && s[1..] == digits;
      NatRoundTrip(-n);
      assert ParseDigits(s[1..]) == Some(-n);
    } else {
      NatToStringStartsWithDigit(n);
      assert s[0] != '-';
      NatRoundTrip(n);
    }
  }
}
