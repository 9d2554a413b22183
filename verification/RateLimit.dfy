/** The per-queue token bucket. Times are nanoseconds; token amounts are reals. */
module RateLimit {
  import opened Spi

  const NANOS_PER_SECOND: real := 1_000_000_000.0

  /** A configured rate: so many per period. */
  datatype Rate = Rate(count: int, per: int)

  /** Rate zero means unlimited. */
  datatype Bucket = Bucket(rate: real, burst: real, tokens: real, last: Time)

  function Seconds(nanos: int): real { nanos as real / NANOS_PER_SECOND }

  function PerSecond(r: Rate): real { if r.per <= 0 then 0.0 else r.count as real / Seconds(r.per) }

  function NewBucket(rate: Option<Rate>, now: Time): (b: Bucket)
    ensures Valid(b)
    ensures b.rate > 0.0 <==> rate.Some? && rate.value.per > 0 && rate.value.count > 0
    ensures b.rate > 0.0 ==> b.tokens == b.burst == rate.value.count as real
  {
    if rate.None? || PerSecond(rate.value) <= 0.0 then Bucket(0.0, 0.0, 0.0, now)
    else
      var burst := if rate.value.count as real < 1.0 then 1.0 else rate.value.count as real;
      Bucket(PerSecond(rate.value), burst, burst, now)
  }

  predicate Valid(b: Bucket) {
    b.rate >= 0.0 && (b.rate > 0.0 ==> b.burst >= 1.0 && 0.0 <= b.tokens <= b.burst)
  }

  function Latest(a: Time, b: Time): Time { if a < b then b else a }

  /** Credit for the time since the last reading, up to the ceiling; a clock that stands still
      or goes back credits nothing. */
  function Refilled(b: Bucket, now: Time): Bucket {
    if now <= b.last then b
    else
      var t := b.tokens + Seconds(now - b.last) * b.rate;
      b.(last := now, tokens := if t > b.burst then b.burst else t)
  }

  /** The new bucket and whether all n may proceed. */
  function AfterAllow(b: Bucket, n: int, now: Time): (Bucket, bool) {
    if n <= 0 || b.rate == 0.0 then (b, true)
    else
      var r := Refilled(b, now);
      if r.tokens < n as real then (r, false) else (r.(tokens := r.tokens - n as real), true)
  }

  /** The seconds that a clock went forward; none if it stood still or went back. */
  function Advance(from: Time, to: Time): real {
    if to <= from then 0.0 else (to - from) as real / 1_000_000_000.0
  }

  function Smaller(a: real, b: real): real { if a <= b then a else b }

  /** What a bucket has at a reading: what it had plus the rate times the advance of the clock,
      but no more than the burst. */
  function Available(b: Bucket, now: Time): real { Smaller(b.burst, b.tokens + b.rate * Advance(b.last, now)) }

  /** One request of a limited bucket: granted exactly when that much is available, and taken
      from it only then. */
  lemma AllowExact(b: Bucket, n: int, now: Time)
    requires Valid(b) && b.rate > 0.0 && n >= 1
    ensures var (b', ok) := AfterAllow(b, n, now);
            && (ok <==> n as real <= Available(b, now))
            && b'.tokens == Available(b, now) - (if ok then n as real else 0.0)
            && b'.last == Latest(b.last, now) && b'.rate == b.rate && b'.burst == b.burst && Valid(b')
  {
    if now <= b.last {
      assert b.rate * Advance(b.last, now) == 0.0;
    } else {
      assert b.rate * Advance(b.last, now) == Seconds(now - b.last) * b.rate >= 0.0;
    }
  }

  /** A limited bucket starts full, and earns the configured count in each configured period. */
  lemma PeriodEarnsCount(rate: Rate, now: Time, from: Time)
    requires rate.per > 0 && rate.count > 0
    ensures var b := NewBucket(Some(rate), now);
            && b.tokens == b.burst == rate.count as real && b.last == now
            && b.rate * Advance(from, from + rate.per) == rate.count as real
  {
    var period := Seconds(rate.per);
    assert period > 0.0 && Advance(from, from + rate.per) == period;
    assert rate.count as real / period * period == rate.count as real;
  }

  class Limiter {
    var ratePerSec: real
    var burst: real
    var tokens: real
    var last: Time

    function View(): Bucket
      reads this
    {
      Bucket(ratePerSec, burst, tokens, last)
    }

    constructor (rate: Option<Rate>, now: Time)
      ensures View() == NewBucket(rate, now)
    {
      last := now;
      ratePerSec, burst, tokens := 0.0, 0.0, 0.0;
      if rate.Some? && PerSecond(rate.value) > 0.0 {
        ratePerSec := PerSecond(rate.value);
        var size := rate.value.count as real;
        if size < 1.0 {
          size := 1.0;
        }
        burst := size;
        tokens := size;
      }
    }

    method Refill(now: Time)
      modifies this
      ensures View() == Refilled(old(View()), now)
    {
      if now <= last {
        return;
      }
      var elapsed := now - last;
      last := now;
      tokens := tokens + Seconds(elapsed) * ratePerSec;
      if tokens > burst {
        tokens := burst;
      }
    }

    method AllowN(n: int, now: Time) returns (ok: bool)
      modifies this
      ensures (View(), ok) == AfterAllow(old(View()), n, now)
      ensures n <= 0 || old(ratePerSec) == 0.0 ==> ok && View() == old(View())
      ensures Valid(old(View())) && old(ratePerSec) > 0.0 && n >= 1 ==>
                (ok <==> n as real <= Available(old(View()), now))
    {
      ghost var b := View();
      if Valid(b) && b.rate > 0.0 && n >= 1 {
        AllowExact(b, n, now);
      }
      hide Available;
      if n <= 0 || ratePerSec == 0.0 {
        return true;
      }
      Refill(now);
      var need := n as real;
      if tokens < need {
        return false;
      }
      tokens := tokens - need;
      return true;
    }

    /** Up to `want` single tokens, each asked for at its own clock reading. */
    method GrantTokens(want: nat, readings: seq<Time>) returns (granted: nat)
      requires |readings| == want
      modifies this
      ensures (View(), granted) == AfterGrants(old(View()), readings)
    {
      granted := 0;
      ghost var b := View();
      assert readings[0..] == readings;
      while granted < want
        invariant 0 <= granted <= want
        invariant AfterGrants(b, readings) ==
                  (AfterGrants(View(), readings[granted..]).0, granted + AfterGrants(View(), readings[granted..]).1)
      {
        assert readings[granted..][0] == readings[granted] && readings[granted..][1..] == readings[granted + 1..];
        var ok := AllowN(1, readings[granted]);
        if !ok {
          return;
        }
        granted := granted + 1;
      }
    }
  }

  /** One token per reading until the first refusal. */
  function AfterGrants(b: Bucket, readings: seq<Time>): (r: (Bucket, nat))
    ensures r.1 <= |readings|
    decreases |readings|
  {
    if readings == [] then (b, 0)
    else
      var (next, ok) := AfterAllow(b, 1, readings[0]);
      if !ok then (next, 0)
      else
        var (end, granted) := AfterGrants(next, readings[1..]);
        (end, granted + 1)
  }

  // ---------- what a bucket lets through ----------

  /** Tokens that time brings: what a bucket can gain between two of its readings. */
  function Credit(rate: real, from: Time, to: Time): real { Seconds(to - from) * rate }

  lemma CreditAdds(rate: real, a: Time, b: Time, c: Time)
    ensures Credit(rate, a, b) + Credit(rate, b, c) == Credit(rate, a, c)
  {
    assert (b - a) as real + (c - b) as real == (c - a) as real;
    assert Seconds(b - a) + Seconds(c - b) == Seconds(c - a);
    assert (Seconds(b - a) + Seconds(c - b)) * rate == Seconds(b - a) * rate + Seconds(c - b) * rate;
  }

  lemma CreditGrows(rate: real, from: Time, to: Time)
    requires rate >= 0.0 && from <= to
    ensures Credit(rate, from, to) >= 0.0
  {
    assert Seconds(to - from) >= 0.0;
  }

  /** Time on the bucket's own clock never goes back, and nothing is granted that was neither
      there nor credited. */
  ghost predicate Accounts(b: Bucket, granted: real, b': Bucket) {
    && Valid(b') && b'.rate == b.rate && b'.burst == b.burst && b'.last >= b.last
    && b'.tokens + granted <= b.tokens + Credit(b.rate, b.last, b'.last)
  }

  lemma AccountsAdd(b: Bucket, g: real, mid: Bucket, h: real, b': Bucket)
    requires Accounts(b, g, mid) && Accounts(mid, h, b')
    ensures Accounts(b, g + h, b')
  {
    hide Credit;
    CreditAdds(b.rate, b.last, mid.last, b'.last);
  }

  lemma AccountsNothing(b: Bucket)
    requires Valid(b)
    ensures Accounts(b, 0.0, b)
  {
  }

  lemma AllowAccounts(b: Bucket, n: int, now: Time)
    requires Valid(b) && b.rate > 0.0
    ensures var (b', ok) := AfterAllow(b, n, now);
            && Accounts(b, if ok && n > 0 then n as real else 0.0, b')
            && b'.last == if n > 0 then Latest(b.last, now) else b.last
  {
    if now > b.last {
      CreditGrows(b.rate, b.last, now);
    }
  }

  // ---------- runs of calls ----------

  datatype Ask = Ask(n: int, now: Time)

  function AfterAsks(b: Bucket, asks: seq<Ask>): Bucket
    decreases |asks|
  {
    if asks == [] then b
    else
      var last := asks[|asks| - 1];
      AfterAllow(AfterAsks(b, asks[..|asks| - 1]), last.n, last.now).0
  }

  /** Everything granted over the run. */
  function Granted(b: Bucket, asks: seq<Ask>): int
    decreases |asks|
  {
    if asks == [] then 0
    else
      var init, last := asks[..|asks| - 1], asks[|asks| - 1];
      Granted(b, init) + if last.n > 0 && AfterAllow(AfterAsks(b, init), last.n, last.now).1 then last.n else 0
  }

  function LatestReading(from: Time, asks: seq<Ask>): Time
    decreases |asks|
  {
    if asks == [] then from
    else
      var earlier := LatestReading(from, asks[..|asks| - 1]);
      if asks[|asks| - 1].n > 0 then Latest(earlier, asks[|asks| - 1].now) else earlier
  }

  lemma {:induction false} RunAccounts(b: Bucket, asks: seq<Ask>)
    requires Valid(b) && b.rate > 0.0
    ensures Accounts(b, Granted(b, asks) as real, AfterAsks(b, asks))
    ensures AfterAsks(b, asks).last == LatestReading(b.last, asks)
    decreases |asks|
  {
    hide AfterAllow, Credit;
    if asks == [] {
      AccountsNothing(b);
    } else {
      var init, last := asks[..|asks| - 1], asks[|asks| - 1];
      RunAccounts(b, init);
      AllowAccounts(AfterAsks(b, init), last.n, last.now);
      var g := if last.n > 0 && AfterAllow(AfterAsks(b, init), last.n, last.now).1 then last.n as real else 0.0;
      AccountsAdd(b, Granted(b, init) as real, AfterAsks(b, init), g, AfterAsks(b, asks));
    }
  }

  lemma {:induction false} LatestIsLatest(from: Time, asks: seq<Ask>)
    ensures LatestReading(from, asks) >= from
    ensures forall a :: a in asks && a.n > 0 ==> a.now <= LatestReading(from, asks)
    ensures LatestReading(from, asks) == from || exists a :: a in asks && a.now == LatestReading(from, asks)
    decreases |asks|
  {
    if asks != [] {
      var init, last := asks[..|asks| - 1], asks[|asks| - 1];
      LatestIsLatest(from, init);
      assert asks == init + [last];
    }
  }

  /** Over any run, on any clock: no more than one burst plus what the forward movement of the
      clock earns. */
  lemma GrantedBound(b: Bucket, asks: seq<Ask>)
    requires Valid(b) && b.rate > 0.0
    ensures Granted(b, asks) as real <= b.burst + Credit(b.rate, b.last, LatestReading(b.last, asks))
  {
    hide Credit;
    RunAccounts(b, asks);
  }

  // ---------- exactly when a request is granted ----------

  /** What was granted by the asks from the k-th on. */
  function GrantedSince(b: Bucket, asks: seq<Ask>, k: nat): int
    requires k <= |asks|
  {
    Granted(b, asks) - Granted(b, asks[..k])
  }

  /** An amount x at a time leaves every account in order: that of the bucket since the start,
      and those of a full bucket since the reading of each ask. */
  ghost predicate Affordable(b: Bucket, asks: seq<Ask>, x: real, at: Time) {
    && x + Granted(b, asks) as real <= b.tokens + Credit(b.rate, b.last, at)
    && forall k :: 0 <= k < |asks| ==> AffordableSince(b, asks, k, x, at)
  }

  ghost predicate AffordableSince(b: Bucket, asks: seq<Ask>, k: nat, x: real, at: Time)
    requires k < |asks|
  {
    x + GrantedSince(b, asks, k) as real <= b.burst + Credit(b.rate, LatestReading(b.last, asks[..k + 1]), at)
  }

  /** The level after any run, on any clock, in terms of the grants made and the readings. */
  lemma {:induction false} LevelExact(b: Bucket, asks: seq<Ask>, x: real)
    requires Valid(b) && b.rate > 0.0
    ensures x <= AfterAsks(b, asks).tokens <==> Affordable(b, asks, x, LatestReading(b.last, asks))
    decreases |asks|
  {
    hide AfterAllow, Credit, Affordable, AffordableSince, GrantedSince;
    if asks == [] {
      NothingAsked(b, x);
    } else {
      var init, last := asks[..|asks| - 1], asks[|asks| - 1];
      assert asks == init + [last];
      var mid, at := LatestReading(b.last, init), LatestReading(b.last, asks);
      var g := Granted(b, asks) - Granted(b, init);
      var before := x + g as real - Credit(b.rate, mid, at);
      LevelExact(b, init, before);
      RunAccounts(b, init);
      LevelAfterOne(AfterAsks(b, init), last, x);
      OneMoreAsk(b, init, last, x);
    }
  }

  lemma NothingAsked(b: Bucket, x: real)
    ensures x <= b.tokens <==> Affordable(b, [], x, b.last)
  {
    assert Credit(b.rate, b.last, b.last) == 0.0;
  }

  lemma LevelAfterOne(b: Bucket, ask: Ask, x: real)
    requires Valid(b) && b.rate > 0.0
    ensures var (b', ok) := AfterAllow(b, ask.n, ask.now);
            var g := if ask.n > 0 && ok then ask.n as real else 0.0;
            var at := if ask.n > 0 then Latest(b.last, ask.now) else b.last;
            && Credit(b.rate, at, at) == 0.0
            && (x <= b'.tokens <==> x + g <= b.burst && x + g - Credit(b.rate, b.last, at) <= b.tokens)
  {
    var at := if ask.n > 0 then Latest(b.last, ask.now) else b.last;
    assert Seconds(at - at) == 0.0;
    if ask.n > 0 {
      AllowExact(b, ask.n, ask.now);
      assert b.rate * Advance(b.last, ask.now) == Credit(b.rate, b.last, at);
    }
  }

  /** An account kept up to the last ask but one, carried over the last one. */
  lemma OneMoreAsk(b: Bucket, init: seq<Ask>, last: Ask, x: real)
    ensures var asks := init + [last];
            var mid, at := LatestReading(b.last, init), LatestReading(b.last, asks);
            var g := Granted(b, asks) - Granted(b, init);
            Affordable(b, asks, x, at) <==>
            Affordable(b, init, x + g as real - Credit(b.rate, mid, at), mid) && x + g as real <= b.burst + Credit(b.rate, at, at)
  {
    hide Credit, AfterAllow, AfterAsks;
    var asks := init + [last];
    var mid, at := LatestReading(b.last, init), LatestReading(b.last, asks);
    var g := Granted(b, asks) - Granted(b, init);
    CreditAdds(b.rate, b.last, mid, at);
    assert asks[..|init|] == init && asks[..|init| + 1] == asks;
    var y := x + g as real - Credit(b.rate, mid, at);
    assert AffordableSince(b, asks, |init|, x, at) <==> x + g as real <= b.burst + Credit(b.rate, at, at);
    forall k | 0 <= k < |init| ensures AffordableSince(b, asks, k, x, at) <==> AffordableSince(b, init, k, y, mid) {
      assert asks[..k] == init[..k] && asks[..k + 1] == init[..k + 1];
      CreditAdds(b.rate, LatestReading(b.last, init[..k + 1]), mid, at);
    }
    hide AffordableSince;
    if Affordable(b, asks, x, at) {
      assert forall k :: 0 <= k < |init| ==> AffordableSince(b, asks, k, x, at);
      assert Affordable(b, init, y, mid);
    }
    if Affordable(b, init, y, mid) && x + g as real <= b.burst + Credit(b.rate, at, at) {
      assert forall k :: 0 <= k < |init| ==> AffordableSince(b, init, k, y, mid);
      assert forall k :: 0 <= k < |asks| ==> AffordableSince(b, asks, k, x, at);
    }
  }

  /** After any run, a request is granted exactly when it is no more than the burst and every
      account of the run, from its start or from any reading on, can afford it by then. */
  lemma GrantedExactly(b: Bucket, asks: seq<Ask>, n: int, now: Time)
    requires Valid(b) && b.rate > 0.0 && n >= 1
    ensures var at := Latest(LatestReading(b.last, asks), now);
            AfterAllow(AfterAsks(b, asks), n, now).1 <==> n as real <= b.burst && Affordable(b, asks, n as real, at)
  {
    hide Credit, AfterAllow, Affordable, AfterAsks;
    var end := AfterAsks(b, asks);
    var at := Latest(LatestReading(b.last, asks), now);
    RunAccounts(b, asks);
    AllowExact(end, n, now);
    AdvanceEarns(b.rate, end.last, now);
    LevelExact(b, asks, n as real - Credit(b.rate, end.last, at));
    Later(b, asks, n as real, at);
  }

  lemma AdvanceEarns(rate: real, from: Time, now: Time)
    ensures rate * Advance(from, now) == Credit(rate, from, Latest(from, now))
  {
    assert Seconds(from - from) == 0.0;
  }

  lemma Later(b: Bucket, asks: seq<Ask>, x: real, at: Time)
    ensures var mid := LatestReading(b.last, asks);
            Affordable(b, asks, x - Credit(b.rate, mid, at), mid) <==> Affordable(b, asks, x, at)
  {
    hide Credit, Granted, GrantedSince;
    var mid := LatestReading(b.last, asks);
    CreditAdds(b.rate, b.last, mid, at);
    var y := x - Credit(b.rate, mid, at);
    forall k | 0 <= k < |asks| ensures AffordableSince(b, asks, k, y, mid) <==> AffordableSince(b, asks, k, x, at) {
      CreditAdds(b.rate, LatestReading(b.last, asks[..k + 1]), mid, at);
    }
    hide AffordableSince;
    if Affordable(b, asks, x, at) {
      assert forall k :: 0 <= k < |asks| ==> AffordableSince(b, asks, k, x, at);
      assert Affordable(b, asks, y, mid);
    }
    if Affordable(b, asks, y, mid) {
      assert forall k :: 0 <= k < |asks| ==> AffordableSince(b, asks, k, y, mid);
      assert Affordable(b, asks, x, at);
    }
  }

  /** After any run, a request within the burst that comes n / rate seconds after the latest
      reading is granted. */
  lemma IdleIsGranted(b: Bucket, asks: seq<Ask>, n: int, now: Time)
    requires Valid(b) && b.rate > 0.0 && 1 <= n && n as real <= b.burst
    requires n as real <= b.rate * Advance(LatestReading(b.last, asks), now)
    ensures AfterAllow(AfterAsks(b, asks), n, now).1
  {
    hide AfterAllow, AfterAsks, Available, Advance, Credit;
    var end := AfterAsks(b, asks);
    RunAccounts(b, asks);
    Covers(end, n, now);
    AllowExact(end, n, now);
  }

  lemma Covers(b: Bucket, n: int, now: Time)
    requires Valid(b) && b.rate > 0.0 && n as real <= b.burst && n as real <= b.rate * Advance(b.last, now)
    ensures n as real <= Available(b, now)
  {
    hide Advance;
  }

  /** A request within the burst is refused only if what was granted since the start, or since
      some reading, exceeds together with it what the bucket, or a full bucket, and the advance
      of the clock since then come to. */
  lemma RefusalMeans(b: Bucket, asks: seq<Ask>, n: int, now: Time) returns (since: Option<nat>)
    requires Valid(b) && b.rate > 0.0 && 1 <= n && n as real <= b.burst
    requires !AfterAllow(AfterAsks(b, asks), n, now).1
    ensures var at := Latest(LatestReading(b.last, asks), now);
            match since
            case None => n as real + Granted(b, asks) as real > b.tokens + Credit(b.rate, b.last, at)
            case Some(k) =>
              && k < |asks|
              && n as real + GrantedSince(b, asks, k) as real > b.burst + Credit(b.rate, LatestReading(b.last, asks[..k + 1]), at)
  {
    hide AfterAllow, AfterAsks, Credit, Granted, GrantedSince, LatestReading;
    GrantedExactly(b, asks, n, now);
    var at := Latest(LatestReading(b.last, asks), now);
    if n as real + Granted(b, asks) as real > b.tokens + Credit(b.rate, b.last, at) {
      since := None;
    } else {
      var k :| 0 <= k < |asks| && !AffordableSince(b, asks, k, n as real, at);
      since := Some(k);
    }
  }

  // ---------- single tokens ----------

  /** Single tokens asked for one after another. */
  function Singles(readings: seq<Time>): seq<Ask> { seq(|readings|, i requires 0 <= i < |readings| => Ask(1, readings[i])) }

  lemma {:induction false} GrantsUpTo(b: Bucket, readings: seq<Time>, k: nat)
    requires k <= AfterGrants(b, readings).1
    ensures var mid := AfterAsks(b, Singles(readings[..k]));
            AfterGrants(b, readings) == (AfterGrants(mid, readings[k..]).0, k + AfterGrants(mid, readings[k..]).1)
    ensures Granted(b, Singles(readings[..k])) == k
    decreases k
  {
    hide AfterAllow;
    if k == 0 {
      assert readings[0..] == readings && Singles(readings[..0]) == [];
    } else {
      GrantsUpTo(b, readings, k - 1);
      var init, asks := Singles(readings[..k - 1]), Singles(readings[..k]);
      assert asks[..|asks| - 1] == init && asks[|asks| - 1] == Ask(1, readings[k - 1]);
      assert readings[k - 1..][0] == readings[k - 1] && readings[k - 1..][1..] == readings[k..];
    }
  }

  /** Tokens are granted one by one until the first refusal, which is an answer of the limiter,
      or until all are granted. */
  lemma GrantsStopAtRefusal(b: Bucket, readings: seq<Time>)
    ensures var g := AfterGrants(b, readings).1;
            && Granted(b, Singles(readings[..g])) == g
            && (g < |readings| ==> !AfterAllow(AfterAsks(b, Singles(readings[..g])), 1, readings[g]).1)
            && AfterGrants(b, readings).0 == AfterAsks(b, Singles(readings[..if g < |readings| then g + 1 else g]))
  {
    hide AfterAllow;
    var g := AfterGrants(b, readings).1;
    GrantsUpTo(b, readings, g);
    if g < |readings| {
      var asks := Singles(readings[..g + 1]);
      assert asks[..|asks| - 1] == Singles(readings[..g]) && asks[|asks| - 1] == Ask(1, readings[g]);
      assert readings[g..][0] == readings[g];
    }
  }

  lemma {:induction false} GrantsAccount(b: Bucket, readings: seq<Time>)
    requires Valid(b) && b.rate > 0.0
    ensures Accounts(b, AfterGrants(b, readings).1 as real, AfterGrants(b, readings).0)
    decreases |readings|
  {
    hide Credit, AfterAllow;
    if readings == [] {
      AccountsNothing(b);
    } else {
      AllowAccounts(b, 1, readings[0]);
      var (next, ok) := AfterAllow(b, 1, readings[0]);
      if ok {
        GrantsAccount(next, readings[1..]);
        AccountsAdd(b, 1.0, next, AfterGrants(next, readings[1..]).1 as real, AfterGrants(b, readings).0);
      }
    }
  }
}
