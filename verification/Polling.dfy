/** The claim loop of one queue: it never claims more than it has free slots and rate tokens
    for, while handlers return their slots at any moment. */
module Polling {
  import opened Spi
  import opened RateLimit
  import opened MemModel
  import MR = MemRefines
  import MemStore
  import P = Provenance

  /** The slots taken and the bucket. */
  datatype Queue = Queue(inFlight: nat, bucket: Bucket)

  /** How many claims a poll may ask tokens for. */
  function Want(concurrency: nat, batch: nat, inFlight: nat): nat {
    if inFlight >= concurrency then 0 else Min(concurrency - inFlight, batch)
  }

  const DEFAULT_POLL_INTERVAL := 500_000_000

  /** The configuration of one queue; durations are nanoseconds. */
  datatype QueueSpec = QueueSpec(
    queue: string,
    maxAttempts: int,
    lease: int,
    handlerTimeout: int,
    batch: int,
    concurrency: int,
    pollInterval: int,
    rate: Option<Rate>)

  /** A configuration a worker can run with. */
  predicate Sound(s: QueueSpec) {
    && s.queue != "" && s.lease > 0
    && s.maxAttempts >= 1 && s.batch >= 1 && s.concurrency >= 1 && s.pollInterval > 0
    && 0 < s.handlerTimeout <= s.lease
  }

  /** Refused without a name or a lease; otherwise made sound, and left alone if it was. */
  function Normalised(s: QueueSpec): (r: Option<QueueSpec>)
    ensures r.None? <==> s.queue == "" || s.lease <= 0
    ensures r.Some? ==> Sound(r.value) && r.value.queue == s.queue && r.value.lease == s.lease && r.value.rate == s.rate
    ensures Sound(s) ==> r == Some(s)
    ensures r.Some? ==>
              && r.value.concurrency == (if s.concurrency >= 1 then s.concurrency else 1)
              && r.value.batch == (if s.batch >= 1 then s.batch else 1)
              && r.value.maxAttempts == (if s.maxAttempts >= 1 then s.maxAttempts else 1)
              && r.value.pollInterval == (if s.pollInterval > 0 then s.pollInterval else 500_000_000)
              && r.value.handlerTimeout == (if 0 < s.handlerTimeout <= s.lease then s.handlerTimeout else s.lease)
  {
    if s.queue == "" || s.lease <= 0 then None
    else Some(s.(
      concurrency := if s.concurrency < 1 then 1 else s.concurrency,
      batch := if s.batch < 1 then 1 else s.batch,
      pollInterval := if s.pollInterval <= 0 then DEFAULT_POLL_INTERVAL else s.pollInterval,
      handlerTimeout := if s.handlerTimeout <= 0 || s.handlerTimeout > s.lease then s.lease else s.handlerTimeout,
      maxAttempts := if s.maxAttempts < 1 then 1 else s.maxAttempts))
  }

  method NewWorker(store: MemStore.Store, spec: QueueSpec, now: Time) returns (w: Option<Worker>)
    ensures w.None? <==> spec.queue == "" || spec.lease <= 0
    ensures w.Some? ==>
              && fresh(w.value) && fresh(w.value.limiter) && w.value.store == store
              && Some(w.value.spec) == Normalised(spec) && w.value.View() == Queue(0, NewBucket(spec.rate, now))
  {
    var s := Normalised(spec);
    if s.None? {
      return None;
    }
    var worker := new Worker(store, s.value, now);
    return Some(worker);
  }

  class Worker {
    const spec: QueueSpec
    const concurrency: nat
    const batch: nat
    const limiter: Limiter
    const store: MemStore.Store
    // The buffered channel `sem` holds one element per running handler.
    var inFlight: nat

    function View(): Queue
      reads this, limiter
    {
      Queue(inFlight, limiter.View())
    }

    constructor (store: MemStore.Store, spec: QueueSpec, now: Time)
      requires Sound(spec)
      ensures this.store == store && this.spec == spec && fresh(limiter)
      ensures concurrency == spec.concurrency && batch == spec.batch
      ensures View() == Queue(0, NewBucket(spec.rate, now))
    {
      this.store := store;
      this.spec := spec;
      this.concurrency := spec.concurrency;
      this.batch := spec.batch;
      this.limiter := new Limiter(spec.rate, now);
      this.inFlight := 0;
    }

    /** A send on the channel: with a slot free it does not block. */
    method Reserve()
      requires inFlight < concurrency
      modifies this
      ensures inFlight == old(inFlight) + 1
    {
      inFlight := inFlight + 1;
    }

    /** Some handlers return, each releasing its slot. */
    method Release(returning: nat) returns (returned: nat)
      modifies this
      ensures returned == Min(returning, old(inFlight))
      ensures inFlight == old(inFlight) - returned
    {
      returned := if returning < inFlight then returning else inFlight;
      inFlight := inFlight - returned;
    }

    /** One poll. `readings` are the clock readings of the rate limiter, `now` the store's
        clock, `returning[k]` the number of handlers that return before the k-th dispatch. */
    method PollOnce(readings: seq<Time>, now: Time, returning: seq<nat>) returns (claimed: seq<Lease>, ghost granted: nat, ghost returned: nat)
      requires inFlight <= concurrency && |readings| >= batch && |returning| >= batch
      modifies this, limiter, store
      ensures PollStep(concurrency, batch, old(View()), readings, |claimed|, returned, View())
      ensures (limiter.View(), granted) == AfterGrants(old(limiter.View()), readings[..Want(concurrency, batch, old(inFlight))])
      ensures store.View() == AfterClaimDue(old(store.View()), spec.queue, granted, spec.lease, now)
      ensures claimed == Leases(store.View(), Taken(old(store.View()), spec.queue, granted, now))
      ensures NoTokenSpared(concurrency - old(inFlight), batch, old(limiter.View()), readings, granted)
      ensures |claimed| == Min(granted, |Waiting(old(store.View()), spec.queue, now)|)
    {
      hide AfterClaimDue, Leases, Taken, AfterGrants, NoTokenSpared, Waiting;
      GrantsWanted(concurrency, batch, inFlight, limiter.View(), readings);
      claimed, granted, returned := [], 0, 0;
      var want := Want(concurrency, batch, inFlight);
      assert want <= concurrency - inFlight && want <= batch;
      if want == 0 {
        NoGrants(limiter.View(), readings);
        NoClaims(store.View(), spec.queue, spec.lease, now);
        return;
      }
      var limit := limiter.GrantTokens(want, readings[..want]);
      granted := limit;
      if limit <= 0 {
        NoClaims(store.View(), spec.queue, spec.lease, now);
        return;
      }
      ClaimsAreDue(store.View(), spec.queue, limit, spec.lease, now);
      claimed := store.ClaimDue(spec.queue, limit, spec.lease, now);
      ghost var before := inFlight;
      var i := 0;
      while i < |claimed|
        invariant 0 <= i <= |claimed|
        invariant inFlight + returned == before + i && inFlight <= concurrency
        invariant unchanged(limiter) || limiter.View() == AfterGrants(old(limiter.View()), readings[..want]).0
        modifies this
      {
        var r := Release(returning[i]);
        returned := returned + r;
        Reserve();
        i := i + 1;
      }
    }
  }

  lemma NoGrants(b: Bucket, readings: seq<Time>)
    ensures AfterGrants(b, readings[..0]) == (b, 0)
  {
  }

  lemma NoClaims(m: State, queue: string, lease: int, now: Time)
    ensures AfterClaimDue(m, queue, 0, lease, now) == m
    ensures Leases(m, Taken(m, queue, 0, now)) == [] && Min(0, |Waiting(m, queue, now)|) == 0
  {
  }

  // ---------- a poll leaves nothing undone ----------

  /** The tasks of a queue whose time has come. */
  function Waiting(m: State, queue: string, now: Time): set<TaskId> {
    set id | id in m.tasks && m.tasks[id].env.queue == queue && P.Ripe(m.tasks[id].env, now)
  }

  /** A poll has a token for every free slot up to the batch size, unless the limiter refused the
      next one. */
  ghost predicate NoTokenSpared(free: int, batch: nat, b: Bucket, readings: seq<Time>, granted: nat) {
    && granted <= free && granted <= batch && granted <= |readings| && Granted(b, Singles(readings[..granted])) == granted
    && (granted < free && granted < batch ==>
          granted < |readings| && !AfterAllow(AfterAsks(b, Singles(readings[..granted])), 1, readings[granted]).1)
  }

  lemma GrantsWanted(concurrency: nat, batch: nat, inFlight: nat, b: Bucket, readings: seq<Time>)
    requires inFlight <= concurrency && |readings| >= batch
    ensures NoTokenSpared(concurrency - inFlight, batch, b, readings, AfterGrants(b, readings[..Want(concurrency, batch, inFlight)]).1)
  {
    hide AfterGrants, AfterAllow, Granted, AfterAsks;
    var used := readings[..Want(concurrency, batch, inFlight)];
    var g := AfterGrants(b, used).1;
    GrantsStopAtRefusal(b, used);
    assert used[..g] == readings[..g];
  }

  /** As many due tasks are claimed as there are tokens for. */
  lemma ClaimsAreDue(m: State, queue: string, limit: nat, lease: int, now: Time)
    ensures |Leases(AfterClaimDue(m, queue, limit, lease, now), Taken(m, queue, limit, now))| ==
            Min(limit, |Waiting(m, queue, now)|)
  {
    hide AfterClaimDue, Taken, Claim, KeyIds, DueAt, MR.Abs;
    MR.ClaimDueExact(m, queue, limit, lease, now);
    MR.DueAbs(m, queue, now);
    assert MR.L.DueSet(MR.Abs(m), queue, now) == Waiting(m, queue, now);
  }

  // ---------- runs ----------

  /** A poll claims no more than it was granted tokens for, and tokens no more than free slots;
      every claim takes a slot and every returning handler gives one back. */
  ghost predicate PollStep(concurrency: nat, batch: nat, q: Queue, readings: seq<Time>, claimed: nat, returned: nat, q': Queue) {
    var want := Want(concurrency, batch, q.inFlight);
    && want <= |readings|
    && q'.bucket == AfterGrants(q.bucket, readings[..want]).0
    && claimed <= AfterGrants(q.bucket, readings[..want]).1
    && q'.inFlight + returned == q.inFlight + claimed
  }

  datatype Event = Poll(readings: seq<Time>, claimed: nat, returned: nat) | Return

  ghost predicate EventStep(concurrency: nat, batch: nat, q: Queue, e: Event, q': Queue) {
    match e
    case Poll(readings, claimed, returned) => PollStep(concurrency, batch, q, readings, claimed, returned, q')
    case Return => q.inFlight > 0 && q' == q.(inFlight := q.inFlight - 1)
  }

  ghost predicate IsRun(concurrency: nat, batch: nat, states: seq<Queue>, events: seq<Event>) {
    && |states| == |events| + 1
    && forall i :: 0 <= i < |events| ==> EventStep(concurrency, batch, states[i], events[i], states[i + 1])
  }

  /** Claims made by the first n events. */
  function Claims(events: seq<Event>, n: nat): nat
    requires n <= |events|
  {
    if n == 0 then 0 else Claims(events, n - 1) + if events[n - 1].Poll? then events[n - 1].claimed else 0
  }

  /** Slots over whole runs: the handlers running never outnumber the slots. */
  lemma {:induction false} SlotsBound(concurrency: nat, batch: nat, states: seq<Queue>, events: seq<Event>, n: nat)
    requires IsRun(concurrency, batch, states, events) && n <= |events| && states[0].inFlight <= concurrency
    ensures states[n].inFlight <= concurrency
    decreases n
  {
    hide AfterGrants;
    if n > 0 {
      SlotsBound(concurrency, batch, states, events, n - 1);
      assert EventStep(concurrency, batch, states[n - 1], events[n - 1], states[n]);
    }
  }

  lemma StepAccounts(concurrency: nat, batch: nat, q: Queue, e: Event, q': Queue)
    requires EventStep(concurrency, batch, q, e, q') && Valid(q.bucket) && q.bucket.rate > 0.0
    ensures Accounts(q.bucket, if e.Poll? then e.claimed as real else 0.0, q'.bucket)
  {
    hide Credit, AfterGrants;
    if e.Poll? {
      GrantsAccount(q.bucket, e.readings[..Want(concurrency, batch, q.inFlight)]);
    } else {
      AccountsNothing(q.bucket);
    }
  }

  lemma {:induction false} ClaimsAccount(concurrency: nat, batch: nat, states: seq<Queue>, events: seq<Event>, n: nat)
    requires IsRun(concurrency, batch, states, events) && n <= |events| && Valid(states[0].bucket) && states[0].bucket.rate > 0.0
    ensures Accounts(states[0].bucket, Claims(events, n) as real, states[n].bucket)
    decreases n
  {
    hide Credit, EventStep;
    if n == 0 {
      AccountsNothing(states[0].bucket);
    } else {
      ClaimsAccount(concurrency, batch, states, events, n - 1);
      var e := events[n - 1];
      StepAccounts(concurrency, batch, states[n - 1], e, states[n]);
      AccountsAdd(states[0].bucket, Claims(events, n - 1) as real, states[n - 1].bucket,
                  if e.Poll? then e.claimed as real else 0.0, states[n].bucket);
    }
  }

  /** The limiter's clock shows its starting time or a reading made during the run. */
  ghost predicate Shown(from: Time, events: seq<Event>, at: Time) {
    at == from || exists i :: 0 <= i < |events| && events[i].Poll? && at in events[i].readings
  }

  lemma {:induction false} GrantsClock(b: Bucket, readings: seq<Time>)
    ensures AfterGrants(b, readings).0.last == b.last || AfterGrants(b, readings).0.last in readings
    decreases |readings|
  {
    if readings != [] {
      GrantsClock(AfterAllow(b, 1, readings[0]).0, readings[1..]);
    }
  }

  lemma {:induction false} ClockShown(concurrency: nat, batch: nat, states: seq<Queue>, events: seq<Event>, n: nat)
    requires IsRun(concurrency, batch, states, events) && n <= |events|
    ensures Shown(states[0].bucket.last, events[..n], states[n].bucket.last)
    decreases n
  {
    hide AfterGrants;
    if n > 0 {
      ClockShown(concurrency, batch, states, events, n - 1);
      assert events[..n][..n - 1] == events[..n - 1];
      var e := events[n - 1];
      assert EventStep(concurrency, batch, states[n - 1], e, states[n]);
      assert forall i :: 0 <= i < n - 1 ==> events[..n][i] == events[..n - 1][i];
      if e.Poll? {
        var used := e.readings[..Want(concurrency, batch, states[n - 1].inFlight)];
        GrantsClock(states[n - 1].bucket, used);
        assert forall t :: t in used ==> t in e.readings;
        assert events[..n][n - 1] == e;
      }
    }
  }

  /** Claims over whole runs: at most one burst plus the rate times the forward movement of the
      limiter's clock, whatever the clock does in between. */
  lemma ClaimsBound(concurrency: nat, batch: nat, states: seq<Queue>, events: seq<Event>)
    requires IsRun(concurrency, batch, states, events) && Valid(states[0].bucket) && states[0].bucket.rate > 0.0
    ensures var first, last := states[0].bucket, states[|events|].bucket;
            && first.last <= last.last && Shown(first.last, events, last.last)
            && Claims(events, |events|) as real <= first.burst + Credit(first.rate, first.last, last.last)
  {
    hide Credit, EventStep;
    ClaimsAccount(concurrency, batch, states, events, |events|);
    ClockShown(concurrency, batch, states, events, |events|);
    assert events[..|events|] == events;
  }
}
