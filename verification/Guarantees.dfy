/** The promises of the storage contract and of the engine, over every run. */
module Guarantees {
  import opened Spi
  import opened Lifecycle
  import opened System
  import opened Invariant

  lemma EmptyGood(max: Limits)
    ensures Inv(max, EMPTY)
  {
  }

  lemma {:induction false} EveryStateGood(max: Limits, r: Run, i: nat)
    requires IsRun(max, r) && i < |r.states|
    ensures Inv(max, r.states[i])
  {
    hide Inv, Next;
    if i == 0 {
      EmptyGood(max);
    } else {
      EveryStateGood(max, r, i - 1);
      StepKeepsInv(max, r.states[i - 1], r.acts[i - 1], r.replies[i - 1], r.states[i]);
    }
  }

  // ---------- bounded invocation ----------

  /** A set that maps injectively below n has at most n elements. */
  lemma {:induction false} InjectionBound<T>(s: set<T>, f: map<T, int>, n: nat)
    requires s <= f.Keys
    requires forall x :: x in s ==> 0 <= f[x] < n
    requires forall x, y :: x in s && y in s && f[x] == f[y] ==> x == y
    ensures |s| <= n
    decreases n
  {
    if n == 0 {
      assert s == {};
    } else if x :| x in s && f[x] == n - 1 {
      InjectionBound(s - {x}, f, n - 1);
    } else {
      InjectionBound(s, f, n - 1);
    }
  }

  /** The handler invocations of one epoch of one record. */
  ghost function EpochInvocations(h: Hist, c: ClaimInfo): set<Token> {
    set t | t in h.invoked && t in h.claims && SameEpoch(h.claims[t], c)
  }

  /** All handler invocations of the present incarnation of an id. */
  ghost function LifeInvocations(h: Hist, id: TaskId): set<Token> {
    set t | t in h.invoked && t in h.claims && h.claims[t].id == id && h.claims[t].birth == Get(h.births, id)
  }

  lemma EpochFits(max: Limits, s: Store, h: Hist, t: Token)
    requires GoodClaims(s, h) && GoodInvocations(max, h) && t in h.claims
    ensures |EpochInvocations(h, h.claims[t])| <= MaxOf(max, h.claims[t].queue)
  {
    var inv := EpochInvocations(h, h.claims[t]);
    var counts := map u | u in inv :: h.claims[u].count;
    forall u, v | u in inv && v in inv && counts[u] == counts[v] ensures u == v {
      assert u != v ==> Apart(h.claims[u], h.claims[v]);
    }
    InjectionBound(inv, counts, MaxOf(max, h.claims[t].queue));
  }

  /** Between two redrives a task's handler runs at most MaxAttempts times, whatever the
      workers, crashes, expired leases and zombies do. */
  lemma EpochBound(max: Limits, r: Run, i: nat, t: Token)
    requires IsRun(max, r) && i < |r.states| && t in r.states[i].hist.claims
    ensures |EpochInvocations(r.states[i].hist, r.states[i].hist.claims[t])|
              <= MaxOf(max, r.states[i].hist.claims[t].queue)
  {
    EveryStateGood(max, r, i);
    EpochFits(max, r.states[i].store, r.states[i].hist, t);
  }

  /** (epoch, count) pairs below (e, m) fit into e * m slots. */
  lemma SlotBound(epoch: int, count: int, e: int, m: int)
    requires 0 <= epoch < e && 0 <= count < m
    ensures 0 <= epoch * m + count < e * m
  {
    assert epoch * m >= 0;
    assert epoch * m + m == (epoch + 1) * m <= e * m;
  }

  lemma SlotInjective(e1: int, c1: int, e2: int, c2: int, m: int)
    requires 0 <= c1 < m && 0 <= c2 < m && e1 * m + c1 == e2 * m + c2
    ensures e1 == e2 && c1 == c2
  {
    if e1 < e2 {
      SlotGap(e1, e2, m);
    } else if e2 < e1 {
      SlotGap(e2, e1, m);
    }
  }

  lemma {:induction false} SlotGap(e1: int, e2: int, m: int)
    requires e1 < e2 && 0 < m
    ensures e1 * m + m <= e2 * m
    decreases e2 - e1
  {
    assert e2 * m == (e2 - 1) * m + m;
    if e1 < e2 - 1 {
      SlotGap(e1, e2 - 1, m);
    }
  }

  lemma LifeFits(max: Limits, s: Store, h: Hist, id: TaskId)
    requires GoodClaims(s, h) && GoodInvocations(max, h) && id in s.tasks
    requires s.tasks[id].task.redriveCount >= 0
    ensures |LifeInvocations(h, id)| <= MaxOf(max, s.tasks[id].task.queue) * (s.tasks[id].task.redriveCount + 1)
  {
    var m, e := MaxOf(max, s.tasks[id].task.queue), s.tasks[id].task.redriveCount + 1;
    var inv := LifeInvocations(h, id);
    var slots := map u | u in inv :: h.claims[u].epoch * m + h.claims[u].count;
    forall u | u in inv
      ensures 0 <= h.claims[u].epoch < e && 0 <= h.claims[u].count < m
      ensures 0 <= slots[u] < e * m
    {
      assert Behind(s, h.births, u, h.claims[u]);
      SlotBound(h.claims[u].epoch, h.claims[u].count, e, m);
    }
    forall u, v | u in inv && v in inv && slots[u] == slots[v] ensures u == v {
      SlotInjective(h.claims[u].epoch, h.claims[u].count, h.claims[v].epoch, h.claims[v].count, m);
      assert u != v ==> Apart(h.claims[u], h.claims[v]);
    }
    assert e * m == m * e;
    InjectionBound(inv, slots, e * m);
  }

  /** In all, at most MaxAttempts × (redrive_count + 1) invocations. */
  lemma LifeBound(max: Limits, r: Run, i: nat, id: TaskId)
    requires IsRun(max, r) && i < |r.states| && id in r.states[i].store.tasks
    ensures |LifeInvocations(r.states[i].hist, id)|
              <= MaxOf(max, r.states[i].store.tasks[id].task.queue)
                 * (r.states[i].store.tasks[id].task.redriveCount + 1)
  {
    hide Next, GoodRecords, GoodTokens, GoodClaims, GoodJobs, GoodInvocations;
    EveryStateGood(max, r, i);
    ClaimAccounting(max, r, i, id);
    LifeFits(max, r.states[i].store, r.states[i].hist, id);
  }

  lemma NextEvolves(max: Limits, a: Sys, act: Act, reply: Reply, b: Sys) returns (changes: map<TaskId, Change>)
    requires Inv(max, a) && Next(max, a, act, reply, b)
    ensures Evolves(max, a.store, changes, b.store) && GrantsAre(Granted(reply), changes, b.store)
  {
    hide Evolves, GrantsAre, GoodRecords, GoodTokens, GoodClaims, GoodJobs, GoodInvocations, Conserved, Enabled, StoreStep, JobsStep, HistStep;
    changes := StepEvolves(max, a, act, reply, b.store);
  }

  lemma MintedStays(max: Limits, s: Store, changes: map<TaskId, Change>, s': Store, t: Token)
    requires Evolves(max, s, changes, s') && t in s.minted
    ensures t in s'.minted
  {
    hide Lawful, Apply, Fresh;
  }

  lemma ClaimIsMinted(max: Limits, a: Sys, t: Token)
    requires Inv(max, a) && t in a.hist.claims
    ensures t in a.store.minted
  {
    hide GoodRecords, GoodTokens, GoodJobs, GoodInvocations, Conserved;
  }

  lemma LeasesAreNew(max: Limits, s: Store, changes: map<TaskId, Change>, s': Store, t: Token)
    requires Evolves(max, s, changes, s') && t in s.minted
    ensures t !in LeaseTokens(changes)
  {
    hide Lawful, Apply, Fresh;
  }

  lemma ClaimsAreRecorded(max: Limits, a: Sys, act: Act, reply: Reply, b: Sys)
    requires Next(max, a, act, reply, b)
    ensures ClaimsRecorded(a.hist, Granted(reply), b.hist)
  {
    hide Enabled, StoreStep, JobsStep, ClaimsRecorded, BirthsRecorded, CountsRecorded;
  }

  lemma ClaimKept(h: Hist, granted: map<TaskId, Grant>, h': Hist, t: Token)
    requires ClaimsRecorded(h, granted, h') && t in h.claims && t !in Tokens(granted)
    ensures t in h'.claims && h'.claims[t] == h.claims[t]
  {
    hide Tokens;
  }

  lemma ClaimPersists(max: Limits, a: Sys, act: Act, reply: Reply, b: Sys, t: Token)
    requires Inv(max, a) && Next(max, a, act, reply, b) && t in a.hist.claims
    ensures t in b.hist.claims && b.hist.claims[t] == a.hist.claims[t]
  {
    hide Inv, Next, Evolves, GrantsAre, LeaseTokens, ClaimsRecorded;
    var changes := NextEvolves(max, a, act, reply, b);
    TokensMatch(Granted(reply), changes, b.store);
    ClaimIsMinted(max, a, t);
    LeasesAreNew(max, a.store, changes, b.store, t);
    ClaimsAreRecorded(max, a, act, reply, b);
    ClaimKept(a.hist, Granted(reply), b.hist, t);
  }

  /** Claims are never forgotten. */
  lemma {:induction false} ClaimsPersist(max: Limits, r: Run, i: nat, j: nat, t: Token)
    requires IsRun(max, r) && i <= j < |r.states| && t in r.states[i].hist.claims
    ensures t in r.states[j].hist.claims && r.states[j].hist.claims[t] == r.states[i].hist.claims[t]
    decreases j - i
  {
    hide Inv, Next;
    if i < j {
      EveryStateGood(max, r, i);
      ClaimPersists(max, r.states[i], r.acts[i], r.replies[i], r.states[i + 1], t);
      ClaimsPersist(max, r, i + 1, j, t);
    }
  }

  lemma NewClaimSeesMore(max: Limits, a: Sys, act: Act, reply: Reply, b: Sys, t: Token, u: Token)
    requires Inv(max, a) && Next(max, a, act, reply, b)
    requires t in a.hist.claims && t in b.hist.claims && u !in a.hist.claims && u in b.hist.claims
    requires SameEpoch(b.hist.claims[t], b.hist.claims[u])
    ensures b.hist.claims[t].count < b.hist.claims[u].count
  {
    var changes := StepEvolves(max, a, act, reply, b.store);
    FreshClaimDiffers(max, a.store, a.hist, changes, Granted(reply), b.store, b.hist, t, u);
  }

  /** Within one epoch every later claim sees a strictly larger attempt count. */
  lemma LaterClaimsSeeMore(max: Limits, r: Run, i: nat, j: nat, t: Token, u: Token)
    requires IsRun(max, r) && i <= j < |r.acts|
    requires t in r.states[i].hist.claims
    requires u !in r.states[j].hist.claims && u in r.states[j + 1].hist.claims
    requires SameEpoch(r.states[i].hist.claims[t], r.states[j + 1].hist.claims[u])
    ensures r.states[i].hist.claims[t].count < r.states[j + 1].hist.claims[u].count
  {
    hide Inv, Next;
    ClaimsPersist(max, r, i, j, t);
    ClaimsPersist(max, r, i, j + 1, t);
    EveryStateGood(max, r, j);
    NewClaimSeesMore(max, r.states[j], r.acts[j], r.replies[j], r.states[j + 1], t, u);
  }

  // ---------- fencing ----------

  ghost predicate Live(s: Store, t: Token) { exists id :: Holds(s, id, t) }

  /** At most one task honours a token. */
  lemma OneHolder(max: Limits, r: Run, i: nat, t: Token, id: TaskId, other: TaskId)
    requires IsRun(max, r) && i < |r.states|
    requires Holds(r.states[i].store, id, t) && Holds(r.states[i].store, other, t)
    ensures id == other
  {
    EveryStateGood(max, r, i);
  }

  lemma DeadTokenStaysDead(max: Limits, a: Sys, act: Act, reply: Reply, b: Sys, t: Token)
    requires Inv(max, a) && Next(max, a, act, reply, b)
    requires t in a.store.minted && !Live(a.store, t)
    ensures t in b.store.minted && !Live(b.store, t)
  {
    hide Next, Inv, Evolves, Holds;
    var changes := NextEvolves(max, a, act, reply, b);
    MintedStays(max, a.store, changes, b.store, t);
    if id :| Holds(b.store, id, t) {
      HeldBefore(max, a.store, changes, b.store, id, t);
    }
  }

  /** A token once spent or reclaimed is dead in every continuation, even if its task is
      purged and the same id is submitted again. */
  lemma {:induction false} DeadTokensStayDead(max: Limits, r: Run, i: nat, j: nat, t: Token)
    requires IsRun(max, r) && i <= j < |r.states|
    requires t in r.states[i].store.minted && !Live(r.states[i].store, t)
    ensures t in r.states[j].store.minted && !Live(r.states[j].store, t)
    decreases j - i
  {
    hide Inv, Next, Live;
    if i < j {
      EveryStateGood(max, r, i);
      DeadTokenStaysDead(max, r.states[i], r.acts[i], r.replies[i], r.states[i + 1], t);
      DeadTokensStayDead(max, r, i + 1, j, t);
    }
  }

  /** So every later call bearing it is refused and changes nothing. */
  lemma StaleCallsRefused(max: Limits, r: Run, i: nat, j: nat, call: Call)
    requires IsRun(max, r) && i <= j < |r.acts|
    requires CallOf(max, r.states[j].jobs, r.acts[j]) == Some(call) && Fenced(call)
    requires call.token in r.states[i].store.minted && !Live(r.states[i].store, call.token)
    ensures r.replies[j] == StaleClaim && r.states[j + 1].store == r.states[j].store
  {
    DeadTokensStayDead(max, r, i, j, call.token);
    assert Next(max, r.states[j], r.acts[j], r.replies[j], r.states[j + 1]);
  }

  lemma SpendingKills(s: Store, call: Call, s': Store)
    requires GoodTokens(s) && Outcomes(call) && FencedStep(s, call, Done, s')
    ensures call.token in s'.minted && !Live(s', call.token)
  {
  }

  lemma TokensGood(max: Limits, a: Sys)
    requires Inv(max, a)
    ensures GoodTokens(a.store)
  {
    hide GoodRecords, GoodTokens, GoodClaims, GoodJobs, GoodInvocations, Conserved;
  }

  lemma SpendingStep(max: Limits, a: Sys, act: Act, b: Sys, call: Call)
    requires Next(max, a, act, Done, b) && CallOf(max, a.jobs, act) == Some(call) && Outcomes(call)
    ensures FencedStep(a.store, call, Done, b.store)
  {
    hide Enabled, JobsStep, HistStep, FencedStep, CallOf;
  }

  /** Each claim is spent at most once: after an accepted outcome write its token is dead. */
  lemma SpentOnce(max: Limits, r: Run, i: nat, j: nat, call: Call)
    requires IsRun(max, r) && i < j < |r.states|
    requires CallOf(max, r.states[i].jobs, r.acts[i]) == Some(call) && Outcomes(call) && r.replies[i] == Done
    ensures !Live(r.states[j].store, call.token)
  {
    hide Inv, Next, Live, Step, FencedStep, GoodTokens, CallOf;
    EveryStateGood(max, r, i);
    TokensGood(max, r.states[i]);
    SpendingStep(max, r.states[i], r.acts[i], r.states[i + 1], call);
    SpendingKills(r.states[i].store, call, r.states[i + 1].store);
    DeadTokensStayDead(max, r, i + 1, j, call.token);
  }

  // ---------- nothing is lost ----------

  lemma Departure(s: Store, call: Call, reply: Reply, s': Store, id: TaskId)
    requires Step(s, call, reply, s') && id in s.tasks && id !in s'.tasks
    ensures call.Purge? || call.PurgeSucceeded?
    ensures s.tasks[id].task.queue == call.queue
    ensures if call.Purge? then s.tasks[id].task.status.Dead? else s.tasks[id].task.status.Succeeded?
  {
  }

  /** A task leaves the store only by a purge of the dead or a sweep of the succeeded. */
  lemma OnlyFinishedTasksLeave(max: Limits, r: Run, i: nat, id: TaskId)
    requires IsRun(max, r) && i < |r.acts|
    requires id in r.states[i].store.tasks && id !in r.states[i + 1].store.tasks
    ensures r.acts[i].Other?
    ensures var t := r.states[i].store.tasks[id].task;
            || (r.acts[i].call.Purge? && t.status.Dead? && t.queue == r.acts[i].call.queue)
            || (r.acts[i].call.PurgeSucceeded? && t.status.Succeeded? && t.queue == r.acts[i].call.queue)
  {
    hide Enabled, JobsStep, HistStep, Step;
    var a, b := r.states[i], r.states[i + 1];
    assert Next(max, a, r.acts[i], r.replies[i], b);
    var call := CallOf(max, a.jobs, r.acts[i]);
    assert call.Some?;
    Departure(a.store, call.value, r.replies[i], b.store, id);
  }

  ghost function WithStatus(s: Store, st: Status): set<TaskId> {
    set id | id in s.tasks && s.tasks[id].task.status == st
  }

  lemma StatusesPartition(s: Store)
    ensures |s.tasks| == |WithStatus(s, Pending)| + |WithStatus(s, InFlight)|
                         + |WithStatus(s, Status.Succeeded)| + |WithStatus(s, Dead)|
  {
    var p, f, d, e := WithStatus(s, Pending), WithStatus(s, InFlight), WithStatus(s, Status.Succeeded), WithStatus(s, Dead);
    var pf, de := p + f, d + e;
    assert pf + de == s.tasks.Keys && pf !! de;
    assert p !! f && d !! e;
  }

  /** Admitted minus purged is what the four statuses hold. */
  lemma Conservation(max: Limits, r: Run, i: nat)
    requires IsRun(max, r) && i < |r.states|
    ensures var s, h := r.states[i].store, r.states[i].hist;
            h.admitted - h.removed ==
              |WithStatus(s, Pending)| + |WithStatus(s, InFlight)|
              + |WithStatus(s, Status.Succeeded)| + |WithStatus(s, Dead)|
  {
    EveryStateGood(max, r, i);
    StatusesPartition(r.states[i].store);
  }

  /** Every unfinished task becomes claimable: a due time exists past which it is due. */
  lemma UnfinishedTasksComeDue(max: Limits, r: Run, i: nat, id: TaskId)
    returns (due: Time)
    requires IsRun(max, r) && i < |r.states| && id in r.states[i].store.tasks
    requires var st := r.states[i].store.tasks[id].task.status; st.Pending? || st.InFlight?
    ensures forall now :: now >= due ==>
              id in DueSet(r.states[i].store, r.states[i].store.tasks[id].task.queue, now)
  {
    EveryStateGood(max, r, i);
    var rec := r.states[i].store.tasks[id];
    assert WellShaped(rec) by {
      assert GoodRecord(max, rec, r.states[i].hist.claimCount[id], r.states[i].hist.base[id]);
    }
    due := if rec.task.status.Pending? then rec.task.nextAt.value else rec.task.leaseAt.value;
  }

  // ---------- accounting and justification ----------

  /** Claims made of a record are its recorded attempts plus the one in flight, and the
      budget spent is the history since the last redrive. */
  lemma ClaimAccounting(max: Limits, r: Run, i: nat, id: TaskId)
    requires IsRun(max, r) && i < |r.states| && id in r.states[i].store.tasks
    ensures var a := r.states[i]; var t := a.store.tasks[id].task;
            && id in a.hist.claimCount && id in a.hist.base
            && a.hist.claimCount[id] == |t.attempts| + (if t.status.InFlight? then 1 else 0)
            && t.attemptCount == |t.attempts| - a.hist.base[id]
            && t.redriveCount >= 0
  {
    EveryStateGood(max, r, i);
    var a := r.states[i];
    assert GoodRecord(max, a.store.tasks[id], a.hist.claimCount[id], a.hist.base[id]);
  }

  /** SUCCEEDED exactly when the last attempt succeeded, no success anywhere else in any
      history, and every dead task failed permanently or ran out of attempts. */
  lemma TerminalStatesJustified(max: Limits, r: Run, i: nat, id: TaskId)
    requires IsRun(max, r) && i < |r.states| && id in r.states[i].store.tasks
    ensures var t := r.states[i].store.tasks[id].task;
            && (t.status == Status.Succeeded <==> LastIs(t.attempts, Success))
            && (forall k :: 0 <= k < |t.attempts| - 1 ==> t.attempts[k].outcome != Success)
            && (t.status.Dead? ==> LastIs(t.attempts, PermanentFailure) || t.attemptCount >= MaxOf(max, t.queue))
  {
    EveryStateGood(max, r, i);
    var a := r.states[i];
    assert GoodRecord(max, a.store.tasks[id], a.hist.claimCount[id], a.hist.base[id]);
  }

  /** While a worker's claim is held, the history is the one it was handed. */
  lemma HeldClaimSeesCurrentHistory(max: Limits, r: Run, i: nat, t: Token)
    requires IsRun(max, r) && i < |r.states| && t in r.states[i].jobs
    requires Holds(r.states[i].store, r.states[i].jobs[t].id, t)
    ensures var j := r.states[i].jobs[t];
            r.states[i].store.tasks[j.id].task.attempts == j.task.attempts
  {
    EveryStateGood(max, r, i);
    assert GoodJob(r.states[i].store, r.states[i].hist, t, r.states[i].jobs[t]);
  }
}
