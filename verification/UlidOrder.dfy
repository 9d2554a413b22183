/** ULIDs as numbers: the text is the base-32 numeral of the 128-bit number the bytes spell,
    so text, bytes and numbers sort alike and the leading 48 bits give the time back. */
module UlidOrder {
  import opened Ordering
  import opened Ulid

  // ---------- numerals ----------

  function Number(base: nat, digits: seq<nat>): nat
    decreases |digits|
  {
    if digits == [] then 0
    else Number(base, digits[..|digits| - 1]) * base + digits[|digits| - 1]
  }

  predicate Below(base: nat, digits: seq<nat>) { forall i :: 0 <= i < |digits| ==> digits[i] < base }

  function Power(base: nat, n: nat): nat { if n == 0 then 1 else Power(base, n - 1) * base }

  lemma Snoc(base: nat, s: seq<nat>, d: nat)
    ensures Number(base, s + [d]) == Number(base, s) * base + d
  {
    assert (s + [d])[..|s|] == s;
  }

  /** A first place where two sequences of equal length differ, the left one being smaller. */
  ghost predicate Earlier(a: seq<nat>, b: seq<nat>) {
    |a| == |b| && exists k :: 0 <= k < |a| && a[..k] == b[..k] && a[k] < b[k]
  }

  lemma EarlierSnoc(a: seq<nat>, b: seq<nat>, x: nat, y: nat)
    requires |a| == |b|
    ensures Earlier(a + [x], b + [y]) <==> Earlier(a, b) || (a == b && x < y)
  {
    var a', b' := a + [x], b + [y];
    if Earlier(a', b') {
      var k :| 0 <= k < |a'| && a'[..k] == b'[..k] && a'[k] < b'[k];
      assert a[..k] == a'[..k] && b[..k] == b'[..k];
      if k < |a| {
        assert a[k] < b[k];
      } else {
        assert a == a'[..k] && b == b'[..k];
      }
    }
    if Earlier(a, b) {
      var k :| 0 <= k < |a| && a[..k] == b[..k] && a[k] < b[k];
      assert a'[..k] == a[..k] == b[..k] == b'[..k] && a'[k] < b'[k];
    }
    if a == b && x < y {
      assert a'[..|a|] == b'[..|a|] && a'[|a|] < b'[|a|];
    }
  }

  lemma Scaled(base: nat, m: nat, n: nat)
    requires m < n
    ensures m * base + base <= n * base
  {
    var gap := n - m - 1;
    assert n * base == (m + 1 + gap) * base == m * base + base + gap * base;
  }

  lemma DigitCompare(base: nat, m: nat, n: nat, x: nat, y: nat)
    requires x < base && y < base
    ensures m * base + x < n * base + y <==> m < n || (m == n && x < y)
    ensures m * base + x == n * base + y <==> m == n && x == y
  {
    if m < n {
      Scaled(base, m, n);
    } else if n < m {
      Scaled(base, n, m);
    }
  }

  /** Numerals of equal length sort as their numbers do. */
  lemma {:induction false} NumeralOrder(base: nat, a: seq<nat>, b: seq<nat>)
    requires |a| == |b| && Below(base, a) && Below(base, b)
    ensures Number(base, a) < Number(base, b) <==> Earlier(a, b)
    ensures Number(base, a) == Number(base, b) <==> a == b
    decreases |a|
  {
    if a != [] {
      var n := |a| - 1;
      NumeralOrder(base, a[..n], b[..n]);
      assert a == a[..n] + [a[n]] && b == b[..n] + [b[n]];
      EarlierSnoc(a[..n], b[..n], a[n], b[n]);
      DigitCompare(base, Number(base, a[..n]), Number(base, b[..n]), a[n], b[n]);
    }
  }

  lemma {:induction false} NumberConcat(base: nat, a: seq<nat>, b: seq<nat>)
    ensures Number(base, a + b) == Number(base, a) * Power(base, |b|) + Number(base, b)
    decreases |b|
  {
    if b == [] {
      assert a + b == a;
    } else {
      var n := |b| - 1;
      assert a + b == (a + b[..n]) + [b[n]];
      Snoc(base, a + b[..n], b[n]);
      NumberConcat(base, a, b[..n]);
      Distribute(Number(base, a), Power(base, n), Number(base, b[..n]), base);
      assert Power(base, |b|) == Power(base, n) * base;
    }
  }

  lemma Distribute(x: nat, p: nat, y: nat, base: nat)
    ensures (x * p + y) * base == x * (p * base) + y * base
  {
    assert (x * p) * base == x * (p * base);
  }

  // ---------- five bytes and eight digits are one number ----------

  function Ints(b: seq<bv8>): (r: seq<nat>)
    ensures |r| == |b| && forall i :: 0 <= i < |b| ==> r[i] == b[i] as int
  {
    seq(|b|, i requires 0 <= i < |b| => b[i] as nat)
  }

  lemma Number5(a: nat, b: nat, c: nat, d: nat, e: nat)
    ensures Number(256, [a, b, c, d, e]) == 0x1_0000_0000 * a + 0x100_0000 * b + 0x1_0000 * c + 0x100 * d + e
  {
    Snoc(256, [], a);
    Snoc(256, [a], b);
    Snoc(256, [a, b], c);
    Snoc(256, [a, b, c], d);
    Snoc(256, [a, b, c, d], e);
    assert [] + [a] == [a] && [a] + [b] == [a, b] && [a, b] + [c] == [a, b, c];
    assert [a, b, c] + [d] == [a, b, c, d] && [a, b, c, d] + [e] == [a, b, c, d, e];
  }

  lemma Number4(a: nat, b: nat, c: nat, d: nat)
    ensures Number(32, [a, b, c, d]) == 0x8000 * a + 0x400 * b + 0x20 * c + d
  {
    Snoc(32, [], a);
    Snoc(32, [a], b);
    Snoc(32, [a, b], c);
    Snoc(32, [a, b, c], d);
    assert [] + [a] == [a] && [a] + [b] == [a, b] && [a, b] + [c] == [a, b, c] && [a, b, c] + [d] == [a, b, c, d];
  }

  lemma Number8(d: seq<nat>)
    requires |d| == 8
    ensures Number(32, d) == 0x10_0000 * (0x8000 * d[0] + 0x400 * d[1] + 0x20 * d[2] + d[3])
                             + 0x8000 * d[4] + 0x400 * d[5] + 0x20 * d[6] + d[7]
  {
    Number4(d[0], d[1], d[2], d[3]);
    Number4(d[4], d[5], d[6], d[7]);
    assert d == [d[0], d[1], d[2], d[3]] + [d[4], d[5], d[6], d[7]];
    NumberConcat(32, [d[0], d[1], d[2], d[3]], [d[4], d[5], d[6], d[7]]);
    assert Power(32, 4) == 0x10_0000;
  }

  lemma Low3Up(x: bv8) ensures ((x & 7) << 2) as int == (x as int % 8) * 4 {}
  lemma Low1Up(x: bv8) ensures ((x & 1) << 4) as int == (x as int % 2) * 16 {}
  lemma Low4Up(x: bv8) ensures ((x & 15) << 1) as int == (x as int % 16) * 2 {}
  lemma Low2Up(x: bv8) ensures ((x & 3) << 3) as int == (x as int % 4) * 8 {}
  lemma Low5(x: bv8) ensures (x & 31) as int == x as int % 32 {}
  lemma Top1(x: bv8) ensures ((x & 128) >> 7) as int == x as int / 128 {}
  lemma Top2(x: bv8) ensures ((x & 192) >> 6) as int == x as int / 64 {}
  lemma Top3(x: bv8) ensures ((x & 224) >> 5) as int == x as int / 32 {}
  lemma Top4(x: bv8) ensures ((x & 240) >> 4) as int == x as int / 16 {}
  lemma Top5(x: bv8) ensures ((x & 248) >> 3) as int == x as int / 8 {}
  lemma Half(x: bv8) ensures (x >> 1) as int == x as int / 2 {}
  lemma Quarter(x: bv8) ensures (x >> 2) as int == x as int / 4 {}

  lemma Mid5Of1(x: bv8)
    ensures ((x & 62) >> 1) as int == (x as int / 2) % 32
  {
    assert (x & 62) >> 1 == (x >> 1) & 31;
    Half(x);
    Low5(x >> 1);
  }

  lemma Mid5Of2(x: bv8)
    ensures ((x & 124) >> 2) as int == (x as int / 4) % 32
  {
    assert (x & 124) >> 2 == (x >> 2) & 31;
    Quarter(x);
    Low5(x >> 2);
  }

  lemma OrIsSum(x: bv8, y: bv8)
    requires x & y == 0
    ensures (x | y) as int == x as int + y as int
  {
  }

  /** The eight digits, as arithmetic on the five bytes. */
  lemma SplitInts(b: seq<bv8>)
    requires |b| == 5
    ensures Regrouped(Ints(b), Ints(Split(b)))
  {
    hide Split;
    SplitLow(b);
    SplitHigh(b);
  }

  lemma SplitLow(b: seq<bv8>)
    requires |b| == 5
    ensures var d := Split(b);
            && d[0] as int == b[0] as int / 8
            && d[1] as int == (b[0] as int % 8) * 4 + b[1] as int / 64
            && d[2] as int == (b[1] as int / 2) % 32
            && d[3] as int == (b[1] as int % 2) * 16 + b[2] as int / 16
  {
    Top5(b[0]);
    Low3Up(b[0]);
    Top2(b[1]);
    OrIsSum((b[0] & 7) << 2, (b[1] & 192) >> 6);
    Mid5Of1(b[1]);
    Low1Up(b[1]);
    Top4(b[2]);
    OrIsSum((b[1] & 1) << 4, (b[2] & 240) >> 4);
  }

  lemma SplitHigh(b: seq<bv8>)
    requires |b| == 5
    ensures var d := Split(b);
            && d[4] as int == (b[2] as int % 16) * 2 + b[3] as int / 128
            && d[5] as int == (b[3] as int / 4) % 32
            && d[6] as int == (b[3] as int % 4) * 8 + b[4] as int / 32
            && d[7] as int == b[4] as int % 32
  {
    Low4Up(b[2]);
    Top1(b[3]);
    OrIsSum((b[2] & 15) << 1, (b[3] & 128) >> 7);
    Mid5Of2(b[3]);
    Low2Up(b[3]);
    Top3(b[4]);
    OrIsSum((b[3] & 3) << 3, (b[4] & 224) >> 5);
    Low5(b[4]);
  }

  lemma Parts1(n: nat)
    requires n < 256
    ensures n == 64 * (n / 64) + 2 * ((n / 2) % 32) + n % 2
  {
  }

  lemma Parts3(n: nat)
    requires n < 256
    ensures n == 128 * (n / 128) + 4 * ((n / 4) % 32) + n % 4
  {
  }

  lemma Regroup(n0: nat, n1: nat, n2: nat, n3: nat, n4: nat)
    requires n0 < 256 && n1 < 256 && n2 < 256 && n3 < 256 && n4 < 256
    ensures 0x10_0000 * (0x8000 * (n0 / 8) + 0x400 * ((n0 % 8) * 4 + n1 / 64) + 0x20 * ((n1 / 2) % 32) + ((n1 % 2) * 16 + n2 / 16))
            + 0x8000 * ((n2 % 16) * 2 + n3 / 128) + 0x400 * ((n3 / 4) % 32) + 0x20 * ((n3 % 4) * 8 + n4 / 32) + n4 % 32
            == 0x1_0000_0000 * n0 + 0x100_0000 * n1 + 0x1_0000 * n2 + 0x100 * n3 + n4
  {
    Parts1(n1);
    Parts3(n3);
  }

  lemma SameNumber(n: seq<nat>, d: seq<nat>)
    requires Below(256, n) && Regrouped(n, d)
    ensures Number(32, d) == Number(256, n)
  {
    hide Number;
    Number8(d);
    Number5(n[0], n[1], n[2], n[3], n[4]);
    assert n == [n[0], n[1], n[2], n[3], n[4]];
    Regroup(n[0], n[1], n[2], n[3], n[4]);
  }

  lemma ByteRange(b: bv8)
    ensures 0 <= b as int < 256
  {
  }

  /** The eight digits of five bytes, as arithmetic. */
  predicate Regrouped(n: seq<nat>, d: seq<nat>) {
    && |n| == 5 && |d| == 8
    && d[0] == n[0] / 8 && d[1] == (n[0] % 8) * 4 + n[1] / 64 && d[2] == (n[1] / 2) % 32 && d[3] == (n[1] % 2) * 16 + n[2] / 16
    && d[4] == (n[2] % 16) * 2 + n[3] / 128 && d[5] == (n[3] / 4) % 32 && d[6] == (n[3] % 4) * 8 + n[4] / 32 && d[7] == n[4] % 32
  }

  lemma SplitNumber(b: seq<bv8>)
    requires |b| == 5
    ensures Number(32, Ints(Split(b))) == Number(256, Ints(b))
  {
    hide Split, Number, Ints, Regrouped;
    SplitInts(b);
    DigitRanges(b);
    SameNumber(Ints(b), Ints(Split(b)));
  }

  // ---------- the text is the numeral ----------

  lemma IntsConcat(a: seq<bv8>, b: seq<bv8>)
    ensures Ints(a + b) == Ints(a) + Ints(b)
  {
  }

  lemma FirstInts(b: bv8)
    ensures Ints(SplitFirst(b)) == [b as int / 32, b as int % 32]
  {
    Top3(b);
    Low5(b);
  }

  lemma TwoDigits(base: nat, x: nat, y: nat)
    ensures Number(base, [x, y]) == x * base + y
  {
    OneDigit(base, x);
    Snoc(base, [x], y);
    assert [x] + [y] == [x, y];
  }

  lemma OneDigit(base: nat, x: nat)
    ensures Number(base, [x]) == x
  {
    Snoc(base, [], x);
    assert [] + [x] == [x];
  }

  lemma FirstNumber(b: bv8)
    ensures Number(32, Ints(SplitFirst(b))) == Number(256, Ints([b]))
  {
    hide SplitFirst, Number;
    FirstInts(b);
    TwoDigits(32, b as int / 32, b as int % 32);
    OneDigit(256, b as int);
    assert Ints([b]) == [b as int];
  }

  lemma GroupSize()
    ensures Power(32, 8) == Power(256, 5) == 0x100_0000_0000
  {
    assert Power(256, 5) == Power(256, 3) * 256 * 256;
    assert Power(32, 8) == Power(32, 6) * 32 * 32;
    assert Power(32, 6) == Power(32, 4) * 32 * 32;
  }

  /** Appending a group on both sides keeps the numbers equal. */
  lemma AppendGroup(digits: seq<bv8>, bytes: seq<bv8>, group: seq<bv8>)
    requires |group| == 5 && Number(32, Ints(digits)) == Number(256, Ints(bytes))
    ensures Number(32, Ints(digits + Split(group))) == Number(256, Ints(bytes + group))
  {
    hide Split, Number, Power;
    IntsConcat(digits, Split(group));
    IntsConcat(bytes, group);
    NumberConcat(32, Ints(digits), Ints(Split(group)));
    NumberConcat(256, Ints(bytes), Ints(group));
    GroupSize();
    SplitNumber(group);
  }

  /** The 26 digits write the 128-bit number in base 32. */
  lemma TextIsNumeral(id: Id)
    ensures Number(32, Ints(DigitsOf(id))) == Number(256, Ints(id))
  {
    hide Split, Number, SplitFirst, Ints;
    FirstNumber(id[0]);
    AppendGroup(SplitFirst(id[0]), [id[0]], id[1..6]);
    AppendGroup(SplitFirst(id[0]) + Split(id[1..6]), [id[0]] + id[1..6], id[6..11]);
    AppendGroup(SplitFirst(id[0]) + Split(id[1..6]) + Split(id[6..11]), [id[0]] + id[1..6] + id[6..11], id[11..16]);
    assert id == [id[0]] + id[1..6] + id[6..11] + id[11..16];
  }

  // ---------- order ----------

  lemma EarlierFront(a: seq<nat>, b: seq<nat>)
    requires |a| == |b| > 0
    ensures Earlier(a, b) <==> a[0] < b[0] || (a[0] == b[0] && Earlier(a[1..], b[1..]))
  {
    if Earlier(a, b) {
      var k :| 0 <= k < |a| && a[..k] == b[..k] && a[k] < b[k];
      if k > 0 {
        assert a[0] == a[..k][0] == b[..k][0] == b[0];
        assert a[1..][..k - 1] == a[..k][1..] == b[..k][1..] == b[1..][..k - 1];
        assert a[1..][k - 1] < b[1..][k - 1];
      }
    }
    if a[0] < b[0] {
      assert a[..0] == b[..0];
    }
    if a[0] == b[0] && Earlier(a[1..], b[1..]) {
      var k :| 0 <= k < |a[1..]| && a[1..][..k] == b[1..][..k] && a[1..][k] < b[1..][k];
      assert a[..k + 1] == [a[0]] + a[1..][..k] && b[..k + 1] == [b[0]] + b[1..][..k];
    }
  }

  lemma {:induction false} RenderedOrder(d: seq<bv8>, e: seq<bv8>)
    requires |d| == |e| && AreDigits(d) && AreDigits(e)
    ensures StrLess(Render(d), Render(e)) <==> Earlier(Ints(d), Ints(e))
    decreases |d|
  {
    hide Earlier, Symbol;
    if d == [] {
      NoneEarlier(Ints(d), Ints(e));
    } else {
      SymbolLess(d[0], e[0]);
      BvLess(d[0], e[0]);
      if d[0] as int == e[0] as int { BvSame(d[0], e[0]); }
      RenderedOrder(d[1..], e[1..]);
      EarlierFront(Ints(d), Ints(e));
      assert Render(d)[1..] == Render(d[1..]) && Render(e)[1..] == Render(e[1..]);
      assert Ints(d)[1..] == Ints(d[1..]) && Ints(e)[1..] == Ints(e[1..]);
    }
  }

  lemma NoneEarlier(a: seq<nat>, b: seq<nat>)
    requires a == []
    ensures !Earlier(a, b)
  {
  }

  lemma DigitRanges(d: seq<bv8>)
    ensures Below(256, Ints(d))
    ensures AreDigits(d) ==> Below(32, Ints(d))
  {
    forall i | 0 <= i < |d| ensures Ints(d)[i] < 256 { ByteRange(d[i]); }
    if AreDigits(d) {
      forall i | 0 <= i < |d| ensures Ints(d)[i] < 32 { Small(d[i]); }
    }
  }

  /** Text order, byte order and numeric order are the same order. */
  lemma SameOrder(a: Id, b: Id)
    ensures StrLess(Encode(a), Encode(b)) <==> Earlier(Ints(a), Ints(b))
    ensures StrLess(Encode(a), Encode(b)) <==> Number(256, Ints(a)) < Number(256, Ints(b))
  {
    hide Earlier, Number, DigitsOf, Render, StrLess, Below;
    RenderedOrder(DigitsOf(a), DigitsOf(b));
    DigitRanges(a);
    DigitRanges(b);
    DigitRanges(DigitsOf(a));
    DigitRanges(DigitsOf(b));
    NumeralOrder(256, Ints(a), Ints(b));
    NumeralOrder(32, Ints(DigitsOf(a)), Ints(DigitsOf(b)));
    TextIsNumeral(a);
    TextIsNumeral(b);
  }

  // ---------- time ----------

  const TIME_LIMIT := 0x1_0000_0000_0000
  const UINT64 := 0x1_0000_0000_0000_0000

  /** The low byte of a number shifted right by whole bytes. */
  function ByteAt(u: nat, unit: nat): bv8
    requires unit > 0
  {
    ByteOf(u / unit % 256)
  }

  /** `ms` is converted to an unsigned 64-bit number first; `random` are the other ten bytes. */
  function NewULIDAt(ms: int, random: seq<bv8>): Id
    requires |random| == 10
  {
    var u := ms % UINT64;
    [ByteAt(u, 0x100_0000_0000), ByteAt(u, 0x1_0000_0000), ByteAt(u, 0x100_0000), ByteAt(u, 0x1_0000), ByteAt(u, 0x100),
     ByteAt(u, 1)] + random
  }

  /** The six leading bytes, big-endian. */
  function Time(id: Id): int {
    0x100_0000_0000 * id[0] as int + 0x1_0000_0000 * id[1] as int + 0x100_0000 * id[2] as int
    + 0x1_0000 * id[3] as int + 0x100 * id[4] as int + id[5] as int
  }

  lemma Low16(u: nat) ensures u % 0x1_0000 == 0x100 * (u / 0x100 % 256) + u % 0x100 {}
  lemma Low24(u: nat) ensures u % 0x100_0000 == 0x1_0000 * (u / 0x1_0000 % 256) + u % 0x1_0000 {}
  lemma Low32(u: nat) ensures u % 0x1_0000_0000 == 0x100_0000 * (u / 0x100_0000 % 256) + u % 0x100_0000 {}
  lemma Low40(u: nat) ensures u % 0x100_0000_0000 == 0x1_0000_0000 * (u / 0x1_0000_0000 % 256) + u % 0x1_0000_0000 {}
  lemma Low48(u: nat) ensures u % TIME_LIMIT == 0x100_0000_0000 * (u / 0x100_0000_0000 % 256) + u % 0x100_0000_0000 {}

  /** What the low bytes of a number add up to. */
  function LowBytes(u: nat): nat {
    0x100_0000_0000 * (u / 0x100_0000_0000 % 256) + 0x1_0000_0000 * (u / 0x1_0000_0000 % 256)
    + 0x100_0000 * (u / 0x100_0000 % 256) + 0x1_0000 * (u / 0x1_0000 % 256) + 0x100 * (u / 0x100 % 256) + u % 0x100
  }

  lemma Chain(u: nat, b5: nat, b4: nat, b3: nat, b2: nat, b1: nat, b0: nat, r16: nat, r24: nat, r32: nat, r40: nat, r48: nat)
    requires r16 == 0x100 * b1 + b0 && r24 == 0x1_0000 * b2 + r16 && r32 == 0x100_0000 * b3 + r24
    requires r40 == 0x1_0000_0000 * b4 + r32 && r48 == 0x100_0000_0000 * b5 + r40
    ensures r48 == 0x100_0000_0000 * b5 + 0x1_0000_0000 * b4 + 0x100_0000 * b3 + 0x1_0000 * b2 + 0x100 * b1 + b0
  {
  }

  lemma SixBytes(u: nat)
    ensures LowBytes(u) == u % TIME_LIMIT
  {
    Low16(u);
    Low24(u);
    Low32(u);
    Low40(u);
    Low48(u);
    Chain(u, u / 0x100_0000_0000 % 256, u / 0x1_0000_0000 % 256, u / 0x100_0000 % 256, u / 0x1_0000 % 256, u / 0x100 % 256, u % 0x100,
          u % 0x1_0000, u % 0x100_0000, u % 0x1_0000_0000, u % 0x100_0000_0000, u % TIME_LIMIT);
  }

  lemma TimeOfBytes(u: nat, id: Id)
    requires id[0] == ByteAt(u, 0x100_0000_0000) && id[1] == ByteAt(u, 0x1_0000_0000) && id[2] == ByteAt(u, 0x100_0000)
    requires id[3] == ByteAt(u, 0x1_0000) && id[4] == ByteAt(u, 0x100) && id[5] == ByteAt(u, 1)
    ensures Time(id) == LowBytes(u)
  {
    hide ByteAt;
    ByteAtInt(u, 0x100_0000_0000);
    ByteAtInt(u, 0x1_0000_0000);
    ByteAtInt(u, 0x100_0000);
    ByteAtInt(u, 0x1_0000);
    ByteAtInt(u, 0x100);
    ByteAtInt(u, 1);
  }

  lemma ByteAtInt(u: nat, unit: nat)
    requires unit > 0
    ensures ByteAt(u, unit) as int == u / unit % 256
  {
  }

  lemma WrapLow48(ms: int)
    ensures (ms % UINT64) % TIME_LIMIT == ms % TIME_LIMIT
  {
  }

  /** The time comes back modulo 2^48, hence exactly for the 48-bit times and no others. */
  lemma TimeRoundTrip(ms: int, random: seq<bv8>)
    requires |random| == 10
    ensures Time(NewULIDAt(ms, random)) == ms % TIME_LIMIT
    ensures Time(NewULIDAt(ms, random)) == ms <==> 0 <= ms < TIME_LIMIT
  {
    hide ByteAt, Time, LowBytes;
    var u := ms % UINT64;
    TimeOfBytes(u, NewULIDAt(ms, random));
    SixBytes(u);
    WrapLow48(ms);
  }

  lemma {:induction false} NumberFits(base: nat, digits: seq<nat>)
    requires Below(base, digits)
    ensures Number(base, digits) < Power(base, |digits|)
    decreases |digits|
  {
    if digits != [] {
      var n := |digits| - 1;
      NumberFits(base, digits[..n]);
      Scaled(base, Number(base, digits[..n]), Power(base, n));
    }
  }

  lemma TimeIsNumber(id: Id)
    ensures Time(id) == Number(256, Ints(id[..6]))
  {
    var n := Ints(id[..6]);
    Number5(n[0], n[1], n[2], n[3], n[4]);
    assert n == [n[0], n[1], n[2], n[3], n[4]] + [n[5]];
    Snoc(256, [n[0], n[1], n[2], n[3], n[4]], n[5]);
  }

  /** An id with a later timestamp sorts later, whatever its random part. */
  lemma LaterSortsLater(a: Id, b: Id)
    requires Time(a) < Time(b)
    ensures StrLess(Encode(a), Encode(b))
  {
    hide Number, Time, Power, Encode, StrLess, Earlier;
    SameOrder(a, b);
    TimeIsNumber(a);
    TimeIsNumber(b);
    TimeLeads(a);
    TimeLeads(b);
    Scaled(Power(256, 10), Number(256, Ints(a[..6])), Number(256, Ints(b[..6])));
  }

  lemma TimeLeads(id: Id)
    ensures var high := Number(256, Ints(id[..6])) * Power(256, 10);
            high <= Number(256, Ints(id)) < high + Power(256, 10)
  {
    hide Number, Power;
    assert id == id[..6] + id[6..];
    IntsConcat(id[..6], id[6..]);
    NumberConcat(256, Ints(id[..6]), Ints(id[6..]));
    DigitRanges(id[6..]);
    NumberFits(256, Ints(id[6..]));
  }
}
