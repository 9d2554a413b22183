/** The retry ladder: an exponential delay, capped, then spread by jitter. Durations are
    nanoseconds in a signed 64-bit integer; the arithmetic between them is on reals. */
module Backoff {
  import opened Spi

  datatype Ladder = Ladder(initial: int, multiplier: real, max: int, jitter: real)

  const MAX_INT64: int := 0x7FFF_FFFF_FFFF_FFFF
  const TWO_63: real := 9223372036854775808.0

  function Pow(m: real, k: nat): real { if k == 0 then 1.0 else m * Pow(m, k - 1) }

  /** Conversion to an integer drops the fraction. */
  function Truncated(x: real): int { if x >= 0.0 then x.Floor else -((-x).Floor) }

  /** Retry numbers below 1 count as 1. */
  function Steps(n: int): nat { if n < 1 then 0 else n - 1 }

  function Scaled(b: Ladder, n: int): real { b.initial as real * Pow(b.multiplier, Steps(n)) }

  function BaseDelay(b: Ladder, n: int): int {
    var scaled := Scaled(b, n);
    if b.max > 0 && scaled >= b.max as real then b.max
    else if scaled >= TWO_63 then MAX_INT64
    else Truncated(scaled)
  }

  /** The cap in force: none given means the largest duration. */
  function Cap(b: Ladder): int { if b.max > 0 then b.max else MAX_INT64 }

  /** `r` is the random draw, in [0, 1). */
  function Factor(b: Ladder, r: real): real { 1.0 + Product(b.jitter, 2.0 * r - 1.0) }

  function Product(x: real, y: real): real { x * y }

  function Jittered(b: Ladder, n: int, r: real): real { Product(BaseDelay(b, n) as real, Factor(b, r)) }

  function Delay(b: Ladder, n: int, r: real): int {
    if b.jitter <= 0.0 then BaseDelay(b, n)
    else
      var d := Truncated(Jittered(b, n, r));
      if d < 0 then 0 else d
  }

  /** What configuration validation admits, and ladders without a cap (Max <= 0) besides, which
      it rejects but the arithmetic provides for. Durations are 64-bit. */
  predicate Admitted(b: Ladder) {
    && 0 < b.initial <= MAX_INT64 && b.max <= MAX_INT64
    && b.multiplier >= 1.0
    && 0.0 <= b.jitter <= 1.0
  }

  // ---------- the base delay ----------

  lemma PowLeast(m: real, k: nat)
    requires m >= 1.0
    ensures Pow(m, k) >= 1.0
  {
    if k > 0 {
      PowLeast(m, k - 1);
      Times(m, Pow(m, k - 1), 1.0);
    }
  }

  lemma Times(m: real, x: real, y: real)
    requires m >= 0.0 && x >= y
    ensures m * x >= m * y
  {
    assert m * (x - y) >= 0.0;
  }

  lemma {:induction false} PowGrows(m: real, j: nat, k: nat)
    requires m >= 1.0 && j <= k
    ensures Pow(m, j) <= Pow(m, k)
    decreases k
  {
    if j < k {
      PowGrows(m, j, k - 1);
      PowLeast(m, k - 1);
      Times(Pow(m, k - 1), m, 1.0);
    }
  }

  lemma ScaledGrows(b: Ladder, n: int, n': int)
    requires Admitted(b) && n <= n'
    ensures b.initial as real <= Scaled(b, n) <= Scaled(b, n')
  {
    hide Pow;
    PowGrows(b.multiplier, Steps(n), Steps(n'));
    PowLeast(b.multiplier, Steps(n));
    Times(b.initial as real, Pow(b.multiplier, Steps(n')), Pow(b.multiplier, Steps(n)));
    Times(b.initial as real, Pow(b.multiplier, Steps(n)), 1.0);
  }

  /** The ladder starts at the initial delay, never comes down and never passes the cap. */
  lemma BaseLadder(b: Ladder, n: int, n': int)
    requires Admitted(b) && b.max > 0 && n <= n'
    ensures BaseDelay(b, 1) == Min(b.initial, b.max)
    ensures 0 <= BaseDelay(b, n) <= BaseDelay(b, n') <= b.max
  {
    hide Pow, Scaled;
    ScaledGrows(b, n, n');
    FirstStep(b);
  }

  lemma FirstStep(b: Ladder)
    ensures Scaled(b, 1) == b.initial as real
  {
  }

  /** Reaching the cap is lasting, however it was reached. */
  lemma CapIsLasting(b: Ladder, n: int, n': int)
    requires Admitted(b) && b.max > 0 && n <= n' && BaseDelay(b, n) == b.max
    ensures BaseDelay(b, n') == b.max
  {
    hide Pow, Scaled;
    ScaledGrows(b, n, n');
  }

  // ---------- from rung to rung ----------

  lemma OneStep(b: Ladder, n: int)
    requires n >= 1
    ensures Scaled(b, n + 1) == Product(b.multiplier, Scaled(b, n))
  {
    var p := Pow(b.multiplier, n - 1);
    assert Pow(b.multiplier, n) == b.multiplier * p;
    assert b.initial as real * (b.multiplier * p) == b.multiplier * (b.initial as real * p);
  }

  /** A rung is the exact value rounded down, or the cap when that is passed. */
  lemma Rounded(b: Ladder, n: int)
    requires Admitted(b)
    ensures 0 <= BaseDelay(b, n) <= Cap(b)
    ensures BaseDelay(b, n) < Cap(b) ==> BaseDelay(b, n) as real <= Scaled(b, n) < BaseDelay(b, n) as real + 1.0
    ensures BaseDelay(b, n) == Cap(b) ==> BaseDelay(b, n) as real <= Scaled(b, n)
  {
    hide Scaled;
    ScaledGrows(b, n, n);
  }

  /** Each rung is the multiplier times the one before, up to rounding and the cap; retry
      numbers below 1 stand on the first. */
  lemma StepLaw(b: Ladder, n: int)
    requires Admitted(b) && n >= 1
    ensures BaseDelay(b, n + 1) as real < b.multiplier * (BaseDelay(b, n) + 1) as real
    ensures BaseDelay(b, n + 1) < Cap(b) ==> b.multiplier * BaseDelay(b, n) as real - 1.0 < BaseDelay(b, n + 1) as real
    ensures BaseDelay(b, 1 - n) == BaseDelay(b, 1)
  {
    hide Scaled, BaseDelay;
    FirstRung(b, 1 - n);
    UpperStep(b, n);
    if BaseDelay(b, n + 1) < Cap(b) {
      LowerStep(b, n);
    }
    var rung := BaseDelay(b, n);
    assert (rung + 1) as real == rung as real + 1.0;
  }

  lemma UpperStep(b: Ladder, n: int)
    requires Admitted(b) && n >= 1
    ensures BaseDelay(b, n + 1) as real < Product(b.multiplier, BaseDelay(b, n) as real + 1.0)
  {
    hide Scaled, BaseDelay, Product;
    OneStep(b, n);
    Rounded(b, n);
    Rounded(b, n + 1);
    var rung := BaseDelay(b, n) as real;
    if BaseDelay(b, n) < Cap(b) {
      TimesMore(b.multiplier, rung + 1.0, Scaled(b, n));
    } else {
      Grows(b.multiplier, rung + 1.0);
    }
  }

  lemma LowerStep(b: Ladder, n: int)
    requires Admitted(b) && n >= 1 && BaseDelay(b, n + 1) < Cap(b)
    ensures Product(b.multiplier, BaseDelay(b, n) as real) - 1.0 < BaseDelay(b, n + 1) as real
  {
    hide Scaled, BaseDelay, Product;
    OneStep(b, n);
    Rounded(b, n);
    Rounded(b, n + 1);
    NotLess(b.multiplier, Scaled(b, n), BaseDelay(b, n) as real);
  }

  lemma NotLess(m: real, x: real, y: real)
    requires m >= 0.0 && x >= y
    ensures Product(m, x) >= Product(m, y)
  {
    Times(m, x, y);
  }

  lemma Grows(m: real, x: real)
    requires m >= 1.0 && x >= 0.0
    ensures Product(m, x) >= x
  {
    Times(x, m, 1.0);
  }

  lemma TimesMore(m: real, x: real, y: real)
    requires m > 0.0 && x > y
    ensures Product(m, x) > Product(m, y)
  {
    Positive(m, x - y);
    assert m * (x - y) == m * x - m * y;
  }

  lemma FirstRung(b: Ladder, n: int)
    requires n <= 1
    ensures BaseDelay(b, n) == BaseDelay(b, 1)
  {
  }

  lemma {:induction false} WholeSteps(b: Ladder, m: int, n: int) returns (whole: int)
    requires b.multiplier == m as real && n >= 1
    ensures Scaled(b, n) == whole as real
    decreases n
  {
    if n == 1 {
      whole := b.initial;
    } else {
      var before := WholeSteps(b, m, n - 1);
      OneStep(b, n - 1);
      whole := m * before;
      assert whole as real == m as real * before as real;
    }
  }

  lemma WholeRung(b: Ladder, n: int, whole: int)
    requires Admitted(b) && Scaled(b, n) == whole as real
    ensures BaseDelay(b, n) == Min(whole, Cap(b))
  {
    hide Scaled;
    ScaledGrows(b, n, n);
    Whole(whole);
  }

  lemma Whole(n: int)
    ensures (n as real).Floor == n
  {
  }

  /** With a whole multiplier each rung is exactly that many times the one before, or the cap. */
  lemma WholeStepLaw(b: Ladder, m: int, n: int)
    requires Admitted(b) && b.multiplier == m as real && n >= 1
    ensures BaseDelay(b, n + 1) == Min(m * BaseDelay(b, n), Cap(b))
  {
    hide Scaled, BaseDelay;
    var whole := WholeSteps(b, m, n);
    OneStep(b, n);
    assert (m * whole) as real == m as real * whole as real;
    WholeRung(b, n, whole);
    WholeRung(b, n + 1, m * whole);
    if whole > Cap(b) {
      AtLeast(m, whole, Cap(b));
    }
  }

  lemma AtLeast(m: int, x: int, y: int)
    requires m >= 1 && x >= y >= 0
    ensures m * x >= y && m * y >= y
  {
    assert m * x - x == (m - 1) * x && m * y - y == (m - 1) * y;
  }

  // ---------- reaching the cap ----------

  lemma GrowsBy(m: real, x: real)
    requires m >= 1.0 && x >= 1.0
    ensures m * x >= x + (m - 1.0)
  {
    Times(m - 1.0, x, 1.0);
    assert m * x == x + (m - 1.0) * x;
  }

  lemma OneMore(k: nat, s: real)
    ensures (k + 1) as real * s == k as real * s + s
  {
    assert (k + 1) as real == k as real + 1.0;
  }

  lemma {:induction false} Bernoulli(m: real, k: nat)
    requires m >= 1.0
    ensures Pow(m, k) >= 1.0 + k as real * (m - 1.0)
    decreases k
  {
    if k > 0 {
      Bernoulli(m, k - 1);
      PowLeast(m, k - 1);
      GrowsBy(m, Pow(m, k - 1));
      OneMore(k - 1, m - 1.0);
    }
  }

  lemma Enough(bound: real, s: real) returns (k: nat)
    requires s > 0.0
    ensures k as real * s >= bound
  {
    if bound <= 0.0 {
      k := 0;
    } else {
      var q := bound / s;
      assert q * s == bound;
      assert q >= 0.0;
      k := q.Floor + 1;
      Times(s, k as real, q);
    }
  }

  /** A growing ladder passes any bound. */
  lemma Unbounded(b: Ladder, bound: real) returns (n: int)
    requires Admitted(b) && b.multiplier > 1.0
    ensures n >= 1 && Scaled(b, n) >= bound
  {
    hide Pow;
    var k := Enough(bound, b.multiplier - 1.0);
    n := k + 1;
    Bernoulli(b.multiplier, k);
    PowLeast(b.multiplier, k);
    var p := Pow(b.multiplier, k);
    assert Steps(n) == k && p >= bound;
    Times(p, b.initial as real, 1.0);
    assert Scaled(b, n) == p * b.initial as real;
  }

  /** The highest rung: a constant ladder stays at its start. */
  function Top(b: Ladder): int { if b.multiplier > 1.0 then Cap(b) else Min(b.initial, Cap(b)) }

  lemma {:induction false} PowOne(k: nat)
    ensures Pow(1.0, k) == 1.0
    decreases k
  {
    if k > 0 {
      PowOne(k - 1);
    }
  }

  lemma BaseAtMostTop(b: Ladder, n: int)
    requires Admitted(b)
    ensures 0 <= BaseDelay(b, n) <= Top(b)
  {
    hide Pow;
    ScaledGrows(b, n, n);
    if b.multiplier == 1.0 {
      PowOne(Steps(n));
    }
  }

  /** The highest rung is reached, and kept from there on. */
  lemma TopIsReached(b: Ladder) returns (n: int)
    requires Admitted(b)
    ensures forall n' :: n <= n' ==> BaseDelay(b, n') == Top(b)
  {
    hide Pow;
    n := 1;
    if b.multiplier > 1.0 {
      n := Unbounded(b, TWO_63);
    }
    forall n' | n <= n' ensures BaseDelay(b, n') == Top(b) {
      ScaledGrows(b, n, n');
      if b.multiplier == 1.0 {
        PowOne(Steps(n'));
      }
    }
  }

  // ---------- jitter ----------

  lemma Positive(x: real, y: real)
    requires x > 0.0 && y > 0.0
    ensures x * y > 0.0
  {
  }

  lemma FactorRange(b: Ladder, r: real)
    requires Admitted(b) && 0.0 <= r < 1.0
    ensures 0.0 <= 1.0 - b.jitter <= Factor(b, r) <= 1.0 + b.jitter
    ensures b.jitter > 0.0 ==> Factor(b, r) < 1.0 + b.jitter
  {
    hide Product;
    Spread(b.jitter, 2.0 * r - 1.0);
  }

  lemma Spread(j: real, x: real)
    requires 0.0 <= j <= 1.0 && -1.0 <= x < 1.0
    ensures -j <= Product(j, x) <= j
    ensures j > 0.0 ==> Product(j, x) < j
  {
    Times(j, x + 1.0, 0.0);
    Times(j, 1.0 - x, 0.0);
    assert j * (x + 1.0) == j * x + j && j * (1.0 - x) == j - j * x;
    if j > 0.0 {
      Positive(j, 1.0 - x);
    }
  }

  lemma Between(base: real, low: real, f: real, high: real)
    requires base >= 0.0 && 0.0 <= low <= f <= high
    ensures 0.0 <= Product(base, low) <= Product(base, f) <= Product(base, high)
  {
    Times(base, low, 0.0);
    Times(base, f, low);
    Times(base, high, f);
  }

  /** The delay is the base spread by at most the jitter fraction, rounded down. */
  lemma DelayRange(b: Ladder, n: int, r: real)
    requires Admitted(b) && 0.0 <= r < 1.0
    ensures var base := BaseDelay(b, n) as real;
            && 0 <= Delay(b, n, r)
            && base * (1.0 - b.jitter) - 1.0 < Delay(b, n, r) as real <= base * (1.0 + b.jitter)
  {
    hide BaseDelay, Factor, Truncated, Jittered;
    JitteredRange(b, n, r);
    DelayRounds(b, n, r);
    assert Product(BaseDelay(b, n) as real, 1.0 - b.jitter) == BaseDelay(b, n) as real * (1.0 - b.jitter);
    assert Product(BaseDelay(b, n) as real, 1.0 + b.jitter) == BaseDelay(b, n) as real * (1.0 + b.jitter);
  }

  lemma DelayRounds(b: Ladder, n: int, r: real)
    requires Admitted(b) && 0.0 <= r < 1.0
    ensures 0 <= Delay(b, n, r) && Jittered(b, n, r) - 1.0 < Delay(b, n, r) as real <= Jittered(b, n, r)
  {
    hide BaseDelay, Truncated, Jittered;
    JitteredRange(b, n, r);
    RoundsDown(Jittered(b, n, r));
    if b.jitter <= 0.0 {
      BaseAtMostTop(b, n);
      NoJitter(b, n, r);
    }
  }

  lemma NoJitter(b: Ladder, n: int, r: real)
    requires b.jitter == 0.0
    ensures Jittered(b, n, r) == BaseDelay(b, n) as real
  {
    hide BaseDelay;
  }

  /** The spread is even: a draw half way between two gives the delay half way between theirs,
      up to rounding; the least draw gives the bottom of the band and the middle one the base. */
  lemma DelayEven(b: Ladder, n: int, r: real, s: real)
    requires Admitted(b) && 0.0 <= r <= s < 1.0
    ensures Delay(b, n, r) <= Delay(b, n, s)
    ensures -2 < 2 * Delay(b, n, (r + s) / 2.0) - Delay(b, n, r) - Delay(b, n, s) < 2
    ensures Delay(b, n, 0.0) == (BaseDelay(b, n) as real * (1.0 - b.jitter)).Floor
    ensures Delay(b, n, 0.5) == BaseDelay(b, n)
  {
    hide BaseDelay, Jittered, Delay;
    DelayRounds(b, n, r);
    DelayRounds(b, n, s);
    DelayRounds(b, n, (r + s) / 2.0);
    DelayRounds(b, n, 0.0);
    DelayRounds(b, n, 0.5);
    JitteredLine(b, n, r, s);
    var m := 2 * Delay(b, n, (r + s) / 2.0);
    assert m as real == 2.0 * Delay(b, n, (r + s) / 2.0) as real;
  }

  lemma JitteredLine(b: Ladder, n: int, r: real, s: real)
    requires Admitted(b) && 0.0 <= r <= s < 1.0
    ensures Jittered(b, n, r) <= Jittered(b, n, s)
    ensures 2.0 * Jittered(b, n, (r + s) / 2.0) == Jittered(b, n, r) + Jittered(b, n, s)
    ensures Jittered(b, n, 0.0) == BaseDelay(b, n) as real * (1.0 - b.jitter)
    ensures Jittered(b, n, 0.5) == BaseDelay(b, n) as real
  {
    hide BaseDelay;
    var base, j := BaseDelay(b, n) as real, b.jitter;
    BaseAtMostTop(b, n);
    var x, y := 2.0 * r - 1.0, 2.0 * s - 1.0;
    Times(j, y, x);
    Times(base, 1.0 + j * y, 1.0 + j * x);
    var z := 2.0 * ((r + s) / 2.0) - 1.0;
    assert 2.0 * z == x + y;
    assert 2.0 * (j * z) == j * x + j * y;
    assert 2.0 * (base * (1.0 + j * z)) == base * (1.0 + j * x) + base * (1.0 + j * y);
  }

  lemma JitteredRange(b: Ladder, n: int, r: real)
    requires Admitted(b) && 0.0 <= r < 1.0
    ensures var base := BaseDelay(b, n) as real;
            0.0 <= Product(base, 1.0 - b.jitter) <= Jittered(b, n, r) <= Product(base, 1.0 + b.jitter)
  {
    hide BaseDelay, Factor, Product;
    BaseAtMostTop(b, n);
    FactorRange(b, r);
    Between(BaseDelay(b, n) as real, 1.0 - b.jitter, Factor(b, r), 1.0 + b.jitter);
  }

  lemma RoundsDown(x: real)
    requires x >= 0.0
    ensures 0 <= Truncated(x) && x - 1.0 < Truncated(x) as real <= x
  {
  }

  /** The product fits the integer it is converted to. */
  predicate Converts(b: Ladder, n: int, r: real) { Jittered(b, n, r) < TWO_63 }

  /** No draw and no retry number leaves the 64-bit range, exactly when the highest rung
      stretched by the jitter still fits. */
  lemma ConvertsAlways(b: Ladder)
    requires Admitted(b) && b.jitter > 0.0
    ensures (forall n, r :: 0.0 <= r < 1.0 ==> Converts(b, n, r)) <==> Product(Top(b) as real, 1.0 + b.jitter) <= TWO_63
  {
    hide BaseDelay, Factor, Top;
    if Product(Top(b) as real, 1.0 + b.jitter) <= TWO_63 {
      forall n, r | 0.0 <= r < 1.0 ensures Converts(b, n, r) { Fits(b, n, r); }
    } else {
      var n := TopIsReached(b);
      TopRange(b);
      var r := Overflowing(b, Top(b) as real);
      assert BaseDelay(b, n) == Top(b);
      assert !Converts(b, n, r);
    }
  }

  /** An uncapped doubling ladder with half a turn of jitter does leave the range. */
  lemma UncappedOverflows() returns (n: int, r: real)
    ensures 0.0 <= r < 1.0 && !Converts(Ladder(1, 2.0, 0, 0.5), n, r)
  {
    hide Converts;
    var b := Ladder(1, 2.0, 0, 0.5);
    ConvertsAlways(b);
    n, r :| 0.0 <= r < 1.0 && !Converts(b, n, r);
  }

  lemma TopRange(b: Ladder)
    requires Admitted(b)
    ensures 0.0 < Top(b) as real <= TWO_63
  {
  }

  lemma Fits(b: Ladder, n: int, r: real)
    requires Admitted(b) && b.jitter > 0.0 && 0.0 <= r < 1.0 && Product(Top(b) as real, 1.0 + b.jitter) <= TWO_63
    ensures Converts(b, n, r)
  {
    hide BaseDelay, Factor, Top, Product;
    BaseAtMostTop(b, n);
    TopRange(b);
    FactorRange(b, r);
    Smaller(BaseDelay(b, n) as real, Factor(b, r), Top(b) as real, 1.0 + b.jitter);
  }

  lemma Smaller(base: real, f: real, top: real, high: real)
    requires 0.0 <= base <= top && 0.0 < top && 0.0 <= f < high
    ensures Product(base, f) < Product(top, high)
  {
    Times(f, top, base);
    Positive(top, high - f);
    assert top * (high - f) == top * high - top * f;
  }

  /** A draw that makes the factor exactly what overflows. */
  lemma Overflowing(b: Ladder, top: real) returns (r: real)
    requires Admitted(b) && b.jitter > 0.0 && 0.0 < top <= TWO_63 && Product(top, 1.0 + b.jitter) > TWO_63
    ensures 0.0 <= r < 1.0 && Product(top, Factor(b, r)) >= TWO_63
  {
    var need := Quotient(TWO_63, top, 1.0, 1.0 + b.jitter);
    var x := Quotient(need - 1.0, b.jitter, 0.0, 1.0);
    r := (x + 1.0) / 2.0;
    assert 2.0 * r - 1.0 == x;
    assert Factor(b, r) == need;
  }

  lemma Quotient(x: real, y: real, low: real, high: real) returns (q: real)
    requires y > 0.0 && low * y <= x < high * y
    ensures q * y == x && low <= q < high
  {
    q := x / y;
    assert q * y == x;
    if q < low {
      Positive(low - q, y);
      assert false;
    }
    if q >= high {
      Times(y, q, high);
      assert false;
    }
  }
}
