/** The URL-safe base64 alphabet without padding, section 5 of RFC 4648, as cursors are wrapped
    in it. A character of a text stands for one byte. */
module Base64 {
  import opened Spi

  predicate IsBytes(s: string) { forall i :: 0 <= i < |s| ==> s[i] as int < 256 }

  function Byte(c: char): (b: nat)
    ensures b < 256
  {
    c as int % 256
  }

  function Symbol(d: nat): char
    requires d < 64
  {
    if d < 26 then (65 + d) as char
    else if d < 52 then (71 + d) as char
    else if d < 62 then (d - 4) as char
    else if d == 62 then '-'
    else '_'
  }

  /** The digit of a character; None outside the alphabet. */
  function Value(c: char): (d: Option<nat>)
    ensures d.Some? ==> d.value < 64
  {
    if 'A' <= c <= 'Z' then Some(c as int - 65)
    else if 'a' <= c <= 'z' then Some(c as int - 71)
    else if '0' <= c <= '9' then Some(c as int + 4)
    else if c == '-' then Some(62)
    else if c == '_' then Some(63)
    else None
  }

  lemma ValueSymbol(d: nat)
    requires d < 64
    ensures Value(Symbol(d)) == Some(d) && !IsBreak(Symbol(d))
  {
  }

  // The four digits of three bytes, and back.

  function Digit0(a: nat): (d: nat)
    requires a < 256
    ensures d < 64
  {
    a / 4
  }

  function Digit1(a: nat, b: nat): (d: nat)
    requires a < 256 && b < 256
    ensures d < 64
  {
    a % 4 * 16 + b / 16
  }

  function Digit2(b: nat, c: nat): (d: nat)
    requires b < 256 && c < 256
    ensures d < 64
  {
    b % 16 * 4 + c / 64
  }

  function Digit3(c: nat): (d: nat)
    requires c < 256
    ensures d < 64
  {
    c % 64
  }

  function Byte0(d: nat, e: nat): (a: nat)
    requires d < 64 && e < 64
    ensures a < 256
  {
    d * 4 + e / 16
  }

  function Byte1(e: nat, f: nat): (b: nat)
    requires e < 64 && f < 64
    ensures b < 256
  {
    e % 16 * 16 + f / 4
  }

  function Byte2(f: nat, g: nat): (c: nat)
    requires f < 64 && g < 64
    ensures c < 256
  {
    f % 4 * 64 + g
  }

  lemma Bits(a: nat, b: nat, c: nat)
    requires a < 256 && b < 256 && c < 256
    ensures Byte0(Digit0(a), Digit1(a, b)) == a
    ensures Byte1(Digit1(a, b), Digit2(b, c)) == b
    ensures Byte2(Digit2(b, c), Digit3(c)) == c
  {
  }

  /** Three bytes to four digits; one or two left over to two or three. */
  function Encode(s: string): (t: string)
    ensures s != "" ==> t != ""
  {
    if s == "" then ""
    else
      var a := Byte(s[0]);
      if |s| == 1 then [Symbol(Digit0(a)), Symbol(Digit1(a, 0))]
      else
        var b := Byte(s[1]);
        if |s| == 2 then [Symbol(Digit0(a)), Symbol(Digit1(a, b)), Symbol(Digit2(b, 0))]
        else
          var c := Byte(s[2]);
          [Symbol(Digit0(a)), Symbol(Digit1(a, b)), Symbol(Digit2(b, c)), Symbol(Digit3(c))] + Encode(s[3..])
  }

  /** Line breaks are skipped wherever they stand. */
  predicate IsBreak(c: char) { c == '\r' || c == '\n' }

  function Unbroken(t: string): string {
    if t == "" then "" else (if IsBreak(t[0]) then "" else [t[0]]) + Unbroken(t[1..])
  }

  /** One to three digits at the end: left-over bits are ignored, a single digit is an error. */
  function DecodeEnd(t: string): Option<string>
    requires 1 <= |t| <= 3
  {
    if |t| == 1 || Value(t[0]).None? || Value(t[1]).None? then None
    else
      var a, b := Value(t[0]).value, Value(t[1]).value;
      if |t| == 2 then Some([Byte0(a, b) as char])
      else if Value(t[2]).None? then None
      else Some([Byte0(a, b) as char, Byte1(b, Value(t[2]).value) as char])
  }

  function DecodeFour(t: string): Option<string>
    requires |t| == 4
  {
    if Value(t[0]).None? || Value(t[1]).None? || Value(t[2]).None? || Value(t[3]).None? then None
    else
      var a, b, c, d := Value(t[0]).value, Value(t[1]).value, Value(t[2]).value, Value(t[3]).value;
      Some([Byte0(a, b) as char, Byte1(b, c) as char, Byte2(c, d) as char])
  }

  function DecodeDigits(t: string): Option<string> {
    if t == "" then Some("")
    else if |t| < 4 then DecodeEnd(t)
    else
      var first, rest := DecodeFour(t[..4]), DecodeDigits(t[4..]);
      if first.None? || rest.None? then None else Some(first.value + rest.value)
  }

  function Decode(t: string): Option<string> { DecodeDigits(Unbroken(t)) }

  lemma {:induction false} NoBreaks(t: string)
    requires forall i :: 0 <= i < |t| ==> !IsBreak(t[i])
    ensures Unbroken(t) == t
    decreases |t|
  {
    if t != "" {
      NoBreaks(t[1..]);
      assert t == [t[0]] + t[1..];
    }
  }

  lemma {:induction false} EncodeUnbroken(s: string)
    ensures forall i :: 0 <= i < |Encode(s)| ==> !IsBreak(Encode(s)[i])
    decreases |s|
  {
    hide Symbol, IsBreak;
    forall d | 0 <= d < 64 ensures !IsBreak(Symbol(d)) { ValueSymbol(d); }
    if |s| > 2 {
      EncodeUnbroken(s[3..]);
    }
  }

  lemma ByteBack(c: char)
    requires c as int < 256
    ensures Byte(c) as char == c
  {
  }

  lemma EndRoundTrip(a: nat, b: nat)
    requires a < 256 && b < 256
    ensures DecodeEnd([Symbol(Digit0(a)), Symbol(Digit1(a, 0))]) == Some([a as char])
    ensures DecodeEnd([Symbol(Digit0(a)), Symbol(Digit1(a, b)), Symbol(Digit2(b, 0))]) == Some([a as char, b as char])
  {
    hide Symbol, Value, Digit0, Digit1, Digit2, Byte0, Byte1;
    ValueSymbol(Digit0(a));
    ValueSymbol(Digit1(a, 0));
    ValueSymbol(Digit1(a, b));
    ValueSymbol(Digit2(b, 0));
    Bits(a, 0, 0);
    Bits(a, b, 0);
  }

  lemma FourRoundTrip(a: nat, b: nat, c: nat)
    requires a < 256 && b < 256 && c < 256
    ensures DecodeFour([Symbol(Digit0(a)), Symbol(Digit1(a, b)), Symbol(Digit2(b, c)), Symbol(Digit3(c))])
            == Some([a as char, b as char, c as char])
  {
    hide Symbol, Value, Digit0, Digit1, Digit2, Digit3, Byte0, Byte1, Byte2;
    ValueSymbol(Digit0(a));
    ValueSymbol(Digit1(a, b));
    ValueSymbol(Digit2(b, c));
    ValueSymbol(Digit3(c));
    Bits(a, b, c);
  }

  lemma {:induction false} DigitsRoundTrip(s: string)
    requires IsBytes(s)
    ensures DecodeDigits(Encode(s)) == Some(s)
    decreases |s|
  {
    hide Symbol, Digit0, Digit1, Digit2, Digit3, Byte, DecodeEnd, DecodeFour;
    if s == "" {
    } else if |s| <= 2 {
      ByteBack(s[0]);
      ByteBack(s[|s| - 1]);
      EndRoundTrip(Byte(s[0]), Byte(s[|s| - 1]));
      assert s == if |s| == 1 then [s[0]] else [s[0], s[1]];
    } else {
      ByteBack(s[0]);
      ByteBack(s[1]);
      ByteBack(s[2]);
      FourRoundTrip(Byte(s[0]), Byte(s[1]), Byte(s[2]));
      DigitsRoundTrip(s[3..]);
      var four := [Symbol(Digit0(Byte(s[0]))), Symbol(Digit1(Byte(s[0]), Byte(s[1]))), Symbol(Digit2(Byte(s[1]), Byte(s[2]))), Symbol(Digit3(Byte(s[2])))];
      assert Encode(s)[..4] == four && Encode(s)[4..] == Encode(s[3..]);
      assert s == [s[0], s[1], s[2]] + s[3..];
    }
  }

  lemma RoundTrip(s: string)
    requires IsBytes(s)
    ensures Decode(Encode(s)) == Some(s)
  {
    EncodeUnbroken(s);
    NoBreaks(Encode(s));
    DigitsRoundTrip(s);
  }

  // ---------- the alphabet and the grouping of section 4 of RFC 4648 ----------

  const UPPER := "ABCDEFGHIJKLMNOPQRSTUVWXYZ"
  const LOWER := "abcdefghijklmnopqrstuvwxyz"
  const DIGITS := "0123456789"

  /** Table 2, digit by digit. */
  lemma SymbolIs(d: nat)
    requires d < 64
    ensures Symbol(d) == (UPPER + LOWER + DIGITS + "-_")[d]
  {
  }

  /** Three bytes and their four digits are one 24-bit number. */
  lemma SameGroup(a: nat, b: nat, c: nat)
    requires a < 256 && b < 256 && c < 256
    ensures 0x4_0000 * Digit0(a) + 0x1000 * Digit1(a, b) + 0x40 * Digit2(b, c) + Digit3(c) == 0x1_0000 * a + 0x100 * b + c
  {
  }

  /** The test vectors of section 10, without padding. */
  lemma Vectors()
    ensures Encode("") == "" && Encode("f") == "Zg" && Encode("fo") == "Zm8" && Encode("foo") == "Zm9v"
    ensures Encode("foob") == "Zm9vYg" && Encode("fooba") == "Zm9vYmE" && Encode("foobar") == "Zm9vYmFy"
  {
  }
}
