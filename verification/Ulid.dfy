/** ULIDs: 128-bit identifiers, a 48-bit millisecond timestamp and 80 random bits, written as
    26 digits of Crockford's base 32. */
module Ulid {
  import opened Spi

  const ALPHABET := "0123456789ABCDEFGHJKMNPQRSTVWXYZ"
  const NOT_A_DIGIT: bv8 := 0xFF

  type Id = b: seq<bv8> | |b| == 16 witness seq(16, _ => 0)

  // ---------- digits and characters ----------

  lemma BvLess(x: bv8, y: bv8)
    ensures x < y <==> x as int < y as int
  {
  }

  lemma BvSame(x: bv8, y: bv8)
    requires x as int == y as int
    ensures x == y
  {
  }

  lemma BvNext(x: bv8)
    requires x < 255
    ensures (x + 1) as int == x as int + 1
  {
  }

  lemma NotLast(x: bv8)
    requires x as int < 255
    ensures x < 255
  {
  }

  /** The byte of a given number. */
  function ByteOf(n: nat): (b: bv8)
    requires n < 256
    ensures b as int == n
  {
    if n == 0 then 0
    else
      NotLast(ByteOf(n - 1));
      BvNext(ByteOf(n - 1));
      ByteOf(n - 1) + 1
  }

  lemma Small(d: bv8)
    requires d <= 31
    ensures 0 <= d as int < 32
  {
    BvLess(31, d);
  }

  function Symbol(d: bv8): char
    requires d <= 31
  {
    Small(d);
    ALPHABET[d as int]
  }

  /** The character codes grow with the digits. */
  lemma AlphabetSorted(i: nat, j: nat)
    requires i < j < |ALPHABET|
    ensures ALPHABET[i] < ALPHABET[j]
  {
    Letter(i);
    Letter(j);
  }

  function Code(i: nat): nat {
    if i < 10 then 48 + i
    else if i < 18 then 55 + i
    else if i < 20 then 56 + i
    else if i < 22 then 57 + i
    else if i < 27 then 58 + i
    else 59 + i
  }

  lemma Letter(i: nat)
    requires i < |ALPHABET|
    ensures ALPHABET[i] as nat == Code(i)
  {
  }

  /** Crockford's digits: the decimal ones and the capital letters except I, L, O and U. */
  lemma AlphabetIs(c: char)
    ensures |ALPHABET| == 32
    ensures c in ALPHABET <==> '0' <= c <= '9' || ('A' <= c <= 'Z' && c != 'I' && c != 'L' && c != 'O' && c != 'U')
  {
    var n := c as nat;
    if c in ALPHABET {
      var i :| 0 <= i < |ALPHABET| && ALPHABET[i] == c;
      Letter(i);
    } else {
      forall i | 0 <= i < |ALPHABET| ensures Code(i) != n { Letter(i); }
      if '0' <= c <= '9' || ('A' <= c <= 'Z' && c != 'I' && c != 'L' && c != 'O' && c != 'U') {
        CodesAre(n);
      }
    }
  }

  lemma CodesAre(n: nat)
    requires 48 <= n <= 57 || (65 <= n <= 90 && n != 73 && n != 76 && n != 79 && n != 85)
    ensures exists i :: 0 <= i < 32 && Code(i) == n
  {
    var i := if n <= 57 then n - 48 else if n <= 72 then n - 55 else if n <= 75 then n - 56
             else if n <= 78 then n - 57 else if n <= 84 then n - 58 else n - 59;
    assert Code(i) == n;
  }

  lemma SymbolLess(d: bv8, e: bv8)
    requires d <= 31 && e <= 31
    ensures d < e <==> Symbol(d) < Symbol(e)
    ensures d == e <==> Symbol(d) == Symbol(e)
  {
    Small(d);
    Small(e);
    BvLess(d, e);
    BvLess(e, d);
    if d as int == e as int { BvSame(d, e); }
    if d as int < e as int { AlphabetSorted(d as int, e as int); }
    if e as int < d as int { AlphabetSorted(e as int, d as int); }
  }

  /** The decoding table: the digit a character stands for. */
  function Value(c: char): (d: bv8)
    ensures d == NOT_A_DIGIT <==> c !in ALPHABET
    ensures d != NOT_A_DIGIT ==> d <= 31 && Symbol(d) == c
  {
    if c !in ALPHABET then NOT_A_DIGIT
    else
      var i := IndexOf(ALPHABET, c);
      DigitFits(i);
      ByteOf(i)
  }

  function IndexOf(s: string, c: char): (i: nat)
    requires c in s
    ensures i < |s| && s[i] == c
  {
    if s[0] == c then 0 else 1 + IndexOf(s[1..], c)
  }

  lemma DigitFits(i: nat)
    requires i < 32
    ensures ByteOf(i) <= 31
  {
    BvLess(31, ByteOf(i));
  }

  lemma ValueSymbol(d: bv8)
    requires d <= 31
    ensures Symbol(d) in ALPHABET && Value(Symbol(d)) == d
  {
    Small(d);
    assert ALPHABET[d as int] in ALPHABET;
    SymbolLess(d, Value(Symbol(d)));
  }

  // ---------- five bytes, eight digits ----------

  predicate AreDigits(d: seq<bv8>) { forall i :: 0 <= i < |d| ==> d[i] <= 31 }

  function Split(b: seq<bv8>): (d: seq<bv8>)
    requires |b| == 5
    ensures |d| == 8 && AreDigits(d)
  {
    [(b[0] & 248) >> 3,
     ((b[0] & 7) << 2) | ((b[1] & 192) >> 6),
     (b[1] & 62) >> 1,
     ((b[1] & 1) << 4) | ((b[2] & 240) >> 4),
     ((b[2] & 15) << 1) | ((b[3] & 128) >> 7),
     (b[3] & 124) >> 2,
     ((b[3] & 3) << 3) | ((b[4] & 224) >> 5),
     b[4] & 31]
  }

  function Join(d: seq<bv8>): (b: seq<bv8>)
    requires |d| == 8
    ensures |b| == 5
  {
    [(d[0] << 3) | (d[1] >> 2),
     (d[1] << 6) | (d[2] << 1) | (d[3] >> 4),
     (d[3] << 4) | (d[4] >> 1),
     (d[4] << 7) | (d[5] << 2) | (d[6] >> 3),
     (d[6] << 5) | d[7]]
  }

  lemma JoinSplit(b: seq<bv8>)
    requires |b| == 5
    ensures Join(Split(b)) == b
  {
  }

  lemma SplitJoin(d: seq<bv8>)
    requires |d| == 8 && AreDigits(d)
    ensures Split(Join(d)) == d
  {
  }

  /** The first byte takes two digits, the first of them at most 7. */
  function SplitFirst(b: bv8): (d: seq<bv8>)
    ensures |d| == 2 && AreDigits(d) && d[0] <= 7
  {
    [(b & 224) >> 5, b & 31]
  }

  function JoinFirst(d: seq<bv8>): bv8
    requires |d| == 2
  {
    (d[0] << 5) | d[1]
  }

  lemma FirstByte(b: bv8, d: seq<bv8>)
    requires |d| == 2 && AreDigits(d) && d[0] <= 7
    ensures JoinFirst(SplitFirst(b)) == b
    ensures SplitFirst(JoinFirst(d)) == d
  {
  }

  // ---------- the whole id ----------

  function DigitsOf(id: Id): (d: seq<bv8>)
    ensures |d| == 26 && AreDigits(d) && d[0] <= 7
  {
    SplitFirst(id[0]) + Split(id[1..6]) + Split(id[6..11]) + Split(id[11..16])
  }

  function OfDigits(d: seq<bv8>): Id
    requires |d| == 26
  {
    [JoinFirst(d[0..2])] + Join(d[2..10]) + Join(d[10..18]) + Join(d[18..26])
  }

  lemma OfDigitsOf(id: Id)
    ensures OfDigits(DigitsOf(id)) == id
  {
    hide Split, Join, SplitFirst, JoinFirst;
    var d := DigitsOf(id);
    assert d[0..2] == SplitFirst(id[0]) && d[2..10] == Split(id[1..6]);
    assert d[10..18] == Split(id[6..11]) && d[18..26] == Split(id[11..16]);
    FirstByte(id[0], d[0..2]);
    JoinSplit(id[1..6]);
    JoinSplit(id[6..11]);
    JoinSplit(id[11..16]);
    assert id == [id[0]] + id[1..6] + id[6..11] + id[11..16];
  }

  lemma DigitsOfDigits(d: seq<bv8>)
    requires |d| == 26 && AreDigits(d) && d[0] <= 7
    ensures DigitsOf(OfDigits(d)) == d
  {
    hide Split, Join, SplitFirst, JoinFirst;
    var id := OfDigits(d);
    assert id[1..6] == Join(d[2..10]) && id[6..11] == Join(d[10..18]) && id[11..16] == Join(d[18..26]);
    FirstByte(id[0], d[0..2]);
    SplitJoin(d[2..10]);
    SplitJoin(d[10..18]);
    SplitJoin(d[18..26]);
    assert d == d[0..2] + d[2..10] + d[10..18] + d[18..26];
  }

  function Render(d: seq<bv8>): (s: string)
    requires AreDigits(d)
    ensures |s| == |d| && forall i :: 0 <= i < |d| ==> s[i] == Symbol(d[i])
  {
    seq(|d|, i requires 0 <= i < |d| => Symbol(d[i]))
  }

  function Read(s: string): (d: seq<bv8>)
    ensures |d| == |s| && forall i :: 0 <= i < |s| ==> d[i] == Value(s[i])
  {
    seq(|s|, i requires 0 <= i < |s| => Value(s[i]))
  }

  function Encode(id: Id): string { Render(DigitsOf(id)) }

  /** The strings that are ULIDs. */
  predicate IsUlid(s: string) {
    |s| == 26 && (forall c :: c in s ==> c in ALPHABET) && Value(s[0]) <= 7
  }

  function Decode(s: string): Option<Id> {
    if IsUlid(s) then Some(OfDigits(Read(s))) else None
  }

  lemma ReadRender(d: seq<bv8>)
    requires AreDigits(d)
    ensures Read(Render(d)) == d
    ensures forall c :: c in Render(d) ==> c in ALPHABET
  {
    forall i | 0 <= i < |d| ensures Value(Render(d)[i]) == d[i] && Render(d)[i] in ALPHABET { ValueSymbol(d[i]); }
  }

  lemma RenderRead(s: string)
    requires forall c :: c in s ==> c in ALPHABET
    ensures AreDigits(Read(s)) && Render(Read(s)) == s
  {
    hide Value, Symbol;
    forall i | 0 <= i < |s| ensures Read(s)[i] <= 31 && Symbol(Read(s)[i]) == s[i] { assert s[i] in s; }
  }

  /** One string per id and one id per accepted string. */
  lemma Bijection(id: Id, s: string)
    ensures IsUlid(Encode(id)) && Decode(Encode(id)) == Some(id)
    ensures Decode(s).Some? <==> IsUlid(s)
    ensures Decode(s).Some? ==> Encode(Decode(s).value) == s
  {
    hide DigitsOf, OfDigits, Value, Symbol;
    ReadRender(DigitsOf(id));
    OfDigitsOf(id);
    assert Value(Encode(id)[0]) == DigitsOf(id)[0];
    if IsUlid(s) {
      RenderRead(s);
      DigitsOfDigits(Read(s));
    }
  }

  // ---------- as written ----------
  // The source spells out all 26 and all 16 assignments: the first byte, then three times the
  // eight and five assignments of Split and Join.

  method WriteGroup(dst: array<char>, at: nat, b: seq<bv8>)
    requires |b| == 5 && at + 8 <= dst.Length
    modifies dst
    ensures dst[at..at + 8] == Render(Split(b))
    ensures dst[..at] == old(dst[..at]) && dst[at + 8..] == old(dst[at + 8..])
  {
    hide Symbol, Split;
    var d := Split(b);
    var i := 0;
    while i < 8
      invariant 0 <= i <= 8
      invariant forall j :: 0 <= j < i ==> dst[at + j] == Symbol(d[j])
      invariant dst[..at] == old(dst[..at]) && dst[at + 8..] == old(dst[at + 8..])
    {
      dst[at + i] := Symbol(d[i]);
      i := i + 1;
    }
  }

  method String(id: Id) returns (s: string)
    ensures s == Encode(id)
  {
    hide Symbol, Split, Render;
    var dst := new char[26];
    dst[0] := Symbol((id[0] & 224) >> 5);
    dst[1] := Symbol(id[0] & 31);
    ghost var first := dst[..2];
    assert first == Render(SplitFirst(id[0]));
    WriteGroup(dst, 2, id[1..6]);
    assert dst[..2] == first;
    ghost var second := dst[2..10];
    WriteGroup(dst, 10, id[6..11]);
    assert dst[..2] == dst[..10][..2] == first && dst[2..10] == dst[..10][2..10] == second;
    ghost var third := dst[10..18];
    WriteGroup(dst, 18, id[11..16]);
    assert dst[..2] == dst[..18][..2] == first && dst[2..10] == dst[..18][2..10] == second;
    assert dst[10..18] == dst[..18][10..18] == third;
    assert dst[..] == first + second + third + dst[18..26];
    RenderParts(SplitFirst(id[0]), Split(id[1..6]), Split(id[6..11]), Split(id[11..16]));
    return dst[..];
  }

  lemma RenderParts(a: seq<bv8>, b: seq<bv8>, c: seq<bv8>, d: seq<bv8>)
    requires AreDigits(a) && AreDigits(b) && AreDigits(c) && AreDigits(d)
    ensures AreDigits(a + b + c + d) && Render(a + b + c + d) == Render(a) + Render(b) + Render(c) + Render(d)
  {
    hide Symbol;
  }

  /** The digits of a string; None at the first character outside the alphabet. */
  method ReadDigits(s: string) returns (v: Option<seq<bv8>>)
    ensures v == if forall c :: c in s ==> c in ALPHABET then Some(Read(s)) else None
  {
    hide Value;
    var digits := [];
    var i := 0;
    while i < |s|
      invariant 0 <= i <= |s| && |digits| == i
      invariant forall j :: 0 <= j < i ==> s[j] in ALPHABET && digits[j] == Value(s[j])
    {
      var d := Value(s[i]);
      if d == NOT_A_DIGIT {
        assert s[i] in s;
        return None;
      }
      digits := digits + [d];
      i := i + 1;
    }
    assert digits == Read(s);
    return Some(digits);
  }

  /** Rejects a wrong length, a character outside the alphabet, and more than 128 bits. */
  method ParseULID(s: string) returns (r: Option<Id>)
    ensures r == Decode(s)
  {
    hide Value, Join, JoinFirst, Read;
    if |s| != 26 {
      return None;
    }
    var v := ReadDigits(s);
    if v.None? || v.value[0] > 7 {
      return None;
    }
    var d := v.value;
    return Some([JoinFirst(d[0..2])] + Join(d[2..10]) + Join(d[10..18]) + Join(d[18..26]));
  }
}
