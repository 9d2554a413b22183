/** Decimal rendering and parsing of integers, as `strconv.FormatInt` and
    `strconv.ParseInt` do it: fencing tokens and page cursors are built from it. */
module Decimal {
  import opened Spi

  function Digit(d: nat): (c: char)
    requires d < 10
    ensures '0' <= c <= '9'
  {
    '0' + d as char
  }

  predicate IsDigit(c: char) { '0' <= c <= '9' }

  function DigitValue(c: char): (d: nat)
    requires IsDigit(c)
    ensures d < 10
  {
    (c - '0') as nat
  }

  function Format(n: nat): (s: string)
    ensures s != [] && forall i :: 0 <= i < |s| ==> IsDigit(s[i])
    decreases n
  {
    if n < 10 then [Digit(n)] else Format(n / 10) + [Digit(n % 10)]
  }

  /** None for the empty string and for any string holding a non-digit. */
  function Parse(s: string): Option<nat>
    decreases |s|
  {
    if s == [] || !IsDigit(s[|s| - 1]) then None
    else if |s| == 1 then Some(DigitValue(s[0]))
    else
      match Parse(s[..|s| - 1])
      case None => None
      case Some(v) => Some(10 * v + DigitValue(s[|s| - 1]))
  }

  lemma {:induction false} ParseFormat(n: nat)
    ensures Parse(Format(n)) == Some(n)
    decreases n
  {
    if n >= 10 {
      ParseFormat(n / 10);
      var s := Format(n);
      assert s[..|s| - 1] == Format(n / 10);
    }
  }

  /** The usual numeral: most significant digit first, and no leading zero but in "0". */
  lemma {:induction false} Numeral(n: nat, d: nat)
    requires d < 10
    ensures Format(d) == ["0123456789"[d]]
    ensures n > 0 ==> Format(10 * n + d) == Format(n) + ["0123456789"[d]]
    ensures Format(n)[0] == '0' <==> n == 0
    decreases n
  {
    if n >= 10 {
      Numeral(n / 10, d);
    }
  }

  lemma FormatInjective(m: nat, n: nat)
    requires Format(m) == Format(n)
    ensures m == n
  {
    ParseFormat(m);
    ParseFormat(n);
  }

  function FormatSigned(n: int): (s: string)
    ensures s != [] && forall i :: 0 <= i < |s| ==> IsDigit(s[i]) || s[i] == '-'
  {
    if n < 0 then "-" + Format(-n) else Format(n)
  }

  function Signed(negative: bool, v: int): int { if negative then -v else v }

  /** A leading '+' is accepted as well as '-', as `strconv.ParseInt` does. */
  function ParseSigned(s: string): Option<int> {
    if s != [] && (s[0] == '-' || s[0] == '+') then
      match Parse(s[1..])
      case None => None
      case Some(v) => Some(Signed(s[0] == '-', v))
    else
      match Parse(s)
      case None => None
      case Some(v) => Some(v)
  }

  lemma ParseFormatSigned(n: int)
    ensures ParseSigned(FormatSigned(n)) == Some(n)
  {
    if n < 0 {
      ParseFormat(-n);
      assert FormatSigned(n)[1..] == Format(-n);
    } else {
      ParseFormat(n);
    }
  }
}
