/** Shortening error texts to a byte budget without splitting a UTF-8 character. */
module Truncate {

  type Byte = b: int | 0 <= b < 256

  type Bytes = seq<Byte>

  /** An ellipsis character (three bytes) and "[truncated]". */
  const MARKER: Bytes := [0xE2, 0x80, 0xA6, 0x5B, 0x74, 0x72, 0x75, 0x6E, 0x63, 0x61, 0x74, 0x65, 0x64, 0x5D]

  // ---------- UTF-8, section 4 of RFC 3629 ----------

  predicate IsTail(b: Byte) { 0x80 <= b <= 0xBF }

  /** A byte that is not a continuation byte. */
  predicate RuneStart(b: Byte) { !IsTail(b) }

  /** The second byte a leading byte allows. */
  predicate Second(first: Byte, b: Byte) {
    if first == 0xE0 then 0xA0 <= b <= 0xBF
    else if first == 0xED then 0x80 <= b <= 0x9F
    else if first == 0xF0 then 0x90 <= b <= 0xBF
    else if first == 0xF4 then 0x80 <= b <= 0x8F
    else IsTail(b)
  }

  /** The length of the character a leading byte announces; 0 for none. */
  function Announced(first: Byte): (n: nat)
    ensures n <= 4
  {
    if first < 0x80 then 1
    else if 0xC2 <= first <= 0xDF then 2
    else if 0xE0 <= first <= 0xEF then 3
    else if 0xF0 <= first <= 0xF4 then 4
    else 0
  }

  /** The length of the well-formed character the text starts with; 0 if it starts with none. */
  function RuneLength(s: Bytes): (n: nat)
    ensures n <= |s| && n <= 4
    ensures forall i :: 0 < i < n ==> !RuneStart(s[i])
  {
    if s == [] then 0
    else
      var n := Announced(s[0]);
      if n > |s| then 0
      else if n >= 2 && !Second(s[0], s[1]) then 0
      else if n >= 3 && !IsTail(s[2]) then 0
      else if n >= 4 && !IsTail(s[3]) then 0
      else n
  }

  predicate WellFormed(s: Bytes)
    decreases |s|
  {
    s == [] || (RuneLength(s) > 0 && WellFormed(s[RuneLength(s)..]))
  }

  /** A place where the text can be cut. */
  predicate Boundary(s: Bytes, n: nat)
    requires n <= |s|
  {
    n == 0 || n == |s| || RuneStart(s[n])
  }

  /** The first character does not depend on what follows it. */
  lemma SameRune(s: Bytes, n: nat)
    requires RuneLength(s) <= n <= |s| && RuneLength(s) > 0
    ensures RuneLength(s[..n]) == RuneLength(s)
  {
  }

  lemma RuneKept(s: Bytes, t: Bytes)
    requires RuneLength(s) > 0
    ensures RuneLength(s + t) == RuneLength(s)
  {
  }

  /** Cutting well-formed text at a boundary leaves well-formed text on both sides. */
  lemma {:induction false} CutAtBoundary(s: Bytes, n: nat)
    requires WellFormed(s) && n <= |s| && Boundary(s, n)
    ensures WellFormed(s[..n]) && WellFormed(s[n..])
    decreases |s|
  {
    hide RuneLength;
    if n == 0 {
      assert s[0..] == s;
    } else {
      var k := RuneLength(s);
      if n == |s| {
        assert s[..n] == s;
      } else {
        assert n >= k;
        CutAtBoundary(s[k..], n - k);
        assert s[k..][..n - k] == s[..n][k..];
        assert s[k..][n - k..] == s[n..];
        SameRune(s, n);
      }
    }
  }

  lemma {:induction false} Concatenated(s: Bytes, t: Bytes)
    requires WellFormed(s) && WellFormed(t)
    ensures WellFormed(s + t)
    decreases |s|
  {
    hide RuneLength;
    if s == [] {
      assert s + t == t;
    } else {
      var k := RuneLength(s);
      RuneKept(s, t);
      Concatenated(s[k..], t);
      assert (s + t)[k..] == s[k..] + t;
    }
  }

  /** In well-formed text a boundary is never more than three bytes back. */
  lemma {:induction false} BoundaryIsNear(s: Bytes, low: nat, n: nat)
    requires WellFormed(s) && low < n <= |s| && forall m :: low < m <= n ==> !Boundary(s, m)
    ensures n - low <= 3
    decreases |s|
  {
    hide RuneLength;
    if s != [] {
      var k := RuneLength(s);
      if low >= k {
        forall m | low - k < m <= n - k ensures !Boundary(s[k..], m) { assert !Boundary(s, m + k); }
        BoundaryIsNear(s[k..], low - k, n - k);
      } else if n >= k {
        assert !Boundary(s, k);
        assert s[k] == s[k..][0];
        StartsRune(s[k..]);
      }
    }
  }

  lemma StartsRune(s: Bytes)
    requires WellFormed(s) && s != []
    ensures RuneStart(s[0])
  {
  }

  // ---------- shortening ----------

  /** `p` is the longest prefix of `s` of at most `n` bytes that ends at a boundary. */
  predicate CutsTo(s: Bytes, n: nat, p: Bytes)
    requires n <= |s|
  {
    p <= s && |p| <= n && Boundary(s, |p|) && forall m :: |p| < m <= n ==> !Boundary(s, m)
  }

  function Cut(s: Bytes, n: nat): (m: nat)
    requires n <= |s|
    ensures m <= n && CutsTo(s, n, s[..m])
  {
    if Boundary(s, n) then n else Cut(s, n - 1)
  }

  lemma CutsWell(s: Bytes, n: nat)
    requires WellFormed(s) && n <= |s|
    ensures WellFormed(s[..Cut(s, n)]) && n - Cut(s, n) <= 3
  {
    var m := Cut(s, n);
    assert CutsTo(s, n, s[..m]);
    CutAtBoundary(s, m);
    if m < n {
      BoundaryIsNear(s, m, n);
    }
  }

  method RuneSafePrefix(s: Bytes, n: nat) returns (p: Bytes)
    requires n <= |s|
    ensures p == s[..Cut(s, n)]
  {
    var m := n;
    while m > 0 && m < |s| && !RuneStart(s[m])
      invariant 0 <= m <= n
      invariant Cut(s, m) == Cut(s, n)
    {
      m := m - 1;
    }
    return s[..m];
  }

  function Shortened(s: Bytes, limit: nat): Bytes {
    if |s| <= limit then s
    else if limit < |MARKER| then MARKER[..Cut(MARKER, limit)]
    else s[..Cut(s, limit - |MARKER|)] + MARKER
  }

  method Truncate(s: Bytes, limit: nat) returns (r: Bytes)
    ensures r == Shortened(s, limit)
  {
    if |s| <= limit {
      return s;
    }
    var budget := limit - |MARKER|;
    if budget < 0 {
      r := RuneSafePrefix(MARKER, limit);
      return;
    }
    var p := RuneSafePrefix(s, budget);
    return p + MARKER;
  }

  /** The result fits, is well formed if the input was, is the input exactly when that fits,
      and otherwise is the longest possible prefix with the marker behind it (or as much of the
      marker as fits); shortening again changes nothing. */
  lemma Shortens(s: Bytes, limit: nat)
    ensures |Shortened(s, limit)| <= limit
    ensures WellFormed(s) ==> WellFormed(Shortened(s, limit))
    ensures Shortened(s, limit) == s <==> |s| <= limit
    ensures |MARKER| <= limit < |s| ==>
              exists p :: Shortened(s, limit) == p + MARKER && CutsTo(s, limit - |MARKER|, p)
    ensures limit < |s| && limit < |MARKER| ==> CutsTo(MARKER, limit, Shortened(s, limit))
    ensures Shortened(Shortened(s, limit), limit) == Shortened(s, limit)
  {
    hide Cut, WellFormed, CutsTo;
    MarkerWellFormed();
    if |s| > limit {
      if limit < |MARKER| {
        CutsWell(MARKER, limit);
      } else {
        var n := limit - |MARKER|;
        var p := s[..Cut(s, n)];
        assert CutsTo(s, n, p);
        if WellFormed(s) {
          CutsWell(s, n);
          Concatenated(p, MARKER);
        }
      }
    }
  }

  lemma MarkerWellFormed()
    ensures WellFormed(MARKER)
  {
    AllAscii(MARKER[3..]);
    assert MARKER == MARKER[..3] + MARKER[3..];
    assert MARKER[..3][3..] == [];
    Concatenated(MARKER[..3], MARKER[3..]);
  }

  lemma {:induction false} AllAscii(s: Bytes)
    requires forall i :: 0 <= i < |s| ==> s[i] < 0x80
    ensures WellFormed(s)
    decreases |s|
  {
    if s != [] {
      AllAscii(s[1..]);
    }
  }

  // ---------- UTF-8 by code point, section 3 of RFC 3629 ----------

  /** The code points that have an encoding: all but the surrogates. */
  predicate Scalar(c: nat) { c <= 0x10FFFF && !(0xD800 <= c <= 0xDFFF) }

  function Utf8(c: nat): Bytes
    requires Scalar(c)
  {
    if c < 0x80 then [c]
    else if c < 0x800 then [0xC0 + c / 0x40, 0x80 + c % 0x40]
    else if c < 0x1_0000 then [0xE0 + c / 0x1000, 0x80 + c / 0x40 % 0x40, 0x80 + c % 0x40]
    else [0xF0 + c / 0x4_0000, 0x80 + c / 0x1000 % 0x40, 0x80 + c / 0x40 % 0x40, 0x80 + c % 0x40]
  }

  function EncodeAll(text: seq<nat>): Bytes
    requires forall c :: c in text ==> Scalar(c)
  {
    if text == [] then [] else Utf8(text[0]) + EncodeAll(text[1..])
  }

  lemma Two(a: Byte, b: Byte) returns (c: nat)
    requires 0xC2 <= a <= 0xDF && IsTail(b)
    ensures Scalar(c) && Utf8(c) == [a, b]
  {
    var high: int, low: int := a - 0xC0, b - 0x80;
    c := 0x40 * high + low;
  }

  lemma Three(a: Byte, b: Byte, d: Byte) returns (c: nat)
    requires 0xE0 <= a <= 0xEF && Second(a, b) && IsTail(d)
    ensures Scalar(c) && Utf8(c) == [a, b, d]
  {
    var high: int, mid: int, low: int := a - 0xE0, b - 0x80, d - 0x80;
    c := 0x1000 * high + 0x40 * mid + low;
    assert c / 0x40 == 0x40 * high + mid;
  }

  lemma Four(a: Byte, b: Byte, d: Byte, e: Byte) returns (c: nat)
    requires 0xF0 <= a <= 0xF4 && Second(a, b) && IsTail(d) && IsTail(e)
    ensures Scalar(c) && Utf8(c) == [a, b, d, e]
  {
    var high: int, mid: int, next: int, low: int := a - 0xF0, b - 0x80, d - 0x80, e - 0x80;
    c := 0x4_0000 * high + 0x1000 * mid + 0x40 * next + low;
    assert c / 0x40 == 0x1000 * high + 0x40 * mid + next;
    assert c / 0x1000 == 0x40 * high + mid;
  }

  /** The character a text starts with is the encoding of one code point. */
  lemma RuneIsScalar(s: Bytes) returns (c: nat)
    requires RuneLength(s) > 0
    ensures Scalar(c) && s[..RuneLength(s)] == Utf8(c)
  {
    hide Second;
    var n := RuneLength(s);
    if n == 1 {
      c := s[0];
    } else {
      hide Utf8, Scalar;
      if n == 2 {
        SecondIsTail(s[0], s[1]);
        c := Two(s[0], s[1]);
      } else if n == 3 {
        c := Three(s[0], s[1], s[2]);
      } else {
        c := Four(s[0], s[1], s[2], s[3]);
      }
    }
  }

  lemma SecondIsTail(first: Byte, b: Byte)
    requires Second(first, b)
    ensures IsTail(b)
  {
  }

  lemma ScalarIsRune(c: nat, rest: Bytes)
    requires Scalar(c)
    ensures RuneLength(Utf8(c) + rest) == |Utf8(c)| > 0
  {
  }

  /** Well-formed text is exactly what encoding a text of code points gives. */
  lemma {:induction false} Decodes(s: Bytes) returns (text: seq<nat>)
    requires WellFormed(s)
    ensures (forall c :: c in text ==> Scalar(c)) && EncodeAll(text) == s
    decreases |s|
  {
    hide RuneLength, Utf8;
    if s == [] {
      text := [];
    } else {
      var c := RuneIsScalar(s);
      var rest := Decodes(s[RuneLength(s)..]);
      text := [c] + rest;
      assert text[1..] == rest;
    }
  }

  lemma {:induction false} Encodes(text: seq<nat>)
    requires forall c :: c in text ==> Scalar(c)
    ensures WellFormed(EncodeAll(text))
    decreases |text|
  {
    hide RuneLength, Utf8;
    if text != [] {
      var rest := EncodeAll(text[1..]);
      Encodes(text[1..]);
      ScalarIsRune(text[0], rest);
      assert (Utf8(text[0]) + rest)[|Utf8(text[0])|..] == rest;
    }
  }

  /** The marker is a horizontal ellipsis and "[truncated]". */
  lemma MarkerIs()
    ensures |MARKER| == 3 + |"[truncated]"| && MARKER[..3] == Utf8(0x2026)
    ensures forall i :: 0 <= i < |"[truncated]"| ==> MARKER[3 + i] == "[truncated]"[i] as int
  {
  }
}
