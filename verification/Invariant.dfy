/** What every state of every run satisfies, and why each kind of step keeps it. */
module Invariant {
  import opened Spi
  import opened Lifecycle
  import opened Engine
  import opened System

  predicate LastIs(attempts: seq<Attempt>, o: Outcome) {
    attempts != [] && attempts[|attempts| - 1].outcome == o
  }

  /** Status, token, lease and schedule agree. */
  predicate WellShaped(r: Rec) {
    && (r.task.status.InFlight? <==> r.token != "")
    && (r.task.status.InFlight? <==> r.task.leaseAt.Some?)
    && ((r.task.status.Pending? || r.task.status.InFlight?) <==> r.task.nextAt.Some?)
  }

  /** Claims made, attempts recorded and budget spent agree. */
  predicate Accounted(r: Rec, claimCount: nat, base: nat) {
    && claimCount == |r.task.attempts| + (if r.task.status.InFlight? then 1 else 0)
    && base <= |r.task.attempts|
    && r.task.attemptCount == |r.task.attempts| - base
    && r.task.redriveCount >= 0
  }

  /** Terminal statuses are earned. */
  predicate Justified(max: nat, t: Task) {
    && (t.status.Succeeded? ==> LastIs(t.attempts, Success))
    && (forall i :: 0 <= i < |t.attempts| && t.attempts[i].outcome.Success? ==>
          t.status.Succeeded? && i == |t.attempts| - 1)
    && (t.status.Dead? ==> LastIs(t.attempts, PermanentFailure) || (t.attempts != [] && t.attemptCount >= max))
  }

  predicate GoodRecord(max: Limits, r: Rec, claimCount: nat, base: nat) {
    WellShaped(r) && Accounted(r, claimCount, base) && Justified(MaxOf(max, r.task.queue), r.task)
  }

  ghost predicate GoodRecords(max: Limits, s: Store, h: Hist) {
    && h.claimCount.Keys == s.tasks.Keys
    && h.base.Keys == s.tasks.Keys
    && forall id :: id in s.tasks ==> GoodRecord(max, s.tasks[id], h.claimCount[id], h.base[id])
  }

  /** At most one task holds a token, and every held token was minted. */
  ghost predicate GoodTokens(s: Store) {
    && "" !in s.minted
    && (forall id :: id in s.tasks && s.tasks[id].token != "" ==> s.tasks[id].token in s.minted)
    && (forall id, other ::
          id in s.tasks && other in s.tasks && s.tasks[id].token != "" && s.tasks[id].token == s.tasks[other].token
          ==> id == other)
  }

  /** A past claim against the record it was made of: it saw a smaller attempt count than
      the record has now, unless it is the claim still held. */
  predicate Behind(s: Store, births: map<TaskId, nat>, t: Token, c: ClaimInfo) {
    && c.birth <= Get(births, c.id)
    && (c.id in s.tasks && c.birth == Get(births, c.id) ==>
          var r := s.tasks[c.id];
          && c.queue == r.task.queue
          && c.epoch <= r.task.redriveCount
          && (c.epoch == r.task.redriveCount ==>
                c.count < r.task.attemptCount || (c.count == r.task.attemptCount && r.token == t)))
  }

  predicate SameLife(c: ClaimInfo, d: ClaimInfo) { c.id == d.id && c.birth == d.birth }

  predicate SameEpoch(c: ClaimInfo, d: ClaimInfo) { SameLife(c, d) && c.epoch == d.epoch }

  ghost predicate GoodClaims(s: Store, h: Hist) {
    && h.claims.Keys == s.minted
    && (forall t :: t in h.claims ==> Behind(s, h.births, t, h.claims[t]))
    && (forall t :: t in h.claims ==> h.claims[t].count >= 0 && h.claims[t].epoch >= 0)
    && (forall t, u :: t in h.claims && u in h.claims && t != u && SameLife(h.claims[t], h.claims[u])
          ==> Apart(h.claims[t], h.claims[u]))
  }

  /** Two claims of one record: same queue, and different counts within one epoch. */
  predicate Apart(c: ClaimInfo, d: ClaimInfo) {
    c.queue == d.queue && (c.epoch == d.epoch ==> c.count != d.count)
  }

  /** A job against the store: while its claim is held, the record's history and budget are
      still what the worker was handed. */
  predicate GoodJob(s: Store, h: Hist, t: Token, j: Job) {
    && t in h.claims
    && h.claims[t].id == j.id
    && h.claims[t].queue == j.task.queue
    && h.claims[t].count == j.task.attemptCount
    && (j.running <==> t in h.invoked)
    && (Holds(s, j.id, t) ==>
          && s.tasks[j.id].task.attempts == j.task.attempts
          && s.tasks[j.id].task.attemptCount == j.task.attemptCount
          && s.tasks[j.id].task.queue == j.task.queue)
  }

  ghost predicate GoodJobs(s: Store, jobs: map<Token, Job>, h: Hist) {
    forall t :: t in jobs ==> GoodJob(s, h, t, jobs[t])
  }

  /** Handlers are invoked only for claims that still had budget. */
  ghost predicate GoodInvocations(max: Limits, h: Hist) {
    forall t :: t in h.invoked ==> t in h.claims && h.claims[t].count < MaxOf(max, h.claims[t].queue)
  }

  ghost predicate Conserved(s: Store, h: Hist) {
    h.admitted - h.removed == |s.tasks|
  }

  ghost predicate Inv(max: Limits, a: Sys) {
    && GoodRecords(max, a.store, a.hist)
    && GoodTokens(a.store)
    && GoodClaims(a.store, a.hist)
    && GoodJobs(a.store, a.jobs, a.hist)
    && GoodInvocations(max, a.hist)
    && Conserved(a.store, a.hist)
  }

  // ---------- one record at a time ----------

  /** The ways one record can change in one step of a run. */
  datatype Change =
    | Keep
    | Lease(token: Token, lease: int, now: Time)
    | Extend(lease: int, now: Time)
    | Retry(attempt: Attempt, at: Time)
    | Succeed(attempt: Attempt)
    | Bury(attempt: Attempt, now: Time)
    | Revive(redriveCount: int, now: Time)

  function Apply(c: Change, r: Rec): Rec {
    match c
    case Keep => r
    case Lease(token, lease, now) => Leased(r, token, lease, now)
    case Extend(lease, now) => Extended(r, lease, now)
    case Retry(a, at) => Rescheduled(r, a, at)
    case Succeed(a) => Completed(r, a)
    case Bury(a, now) => Buried(r, a, now)
    case Revive(n, now) => Redriven(r, n, now)
  }

  /** When each change may happen: outcomes only while in flight and only as the engine
      reports them, revival only from the dead-letter queue. */
  predicate Lawful(max: nat, c: Change, t: Task) {
    match c
    case Keep => true
    case Lease(token, _, _) => token != "" && (t.status.Pending? || t.status.InFlight?)
    case Extend(_, _) => t.status.InFlight?
    case Retry(a, _) => t.status.InFlight? && a.outcome.RetryableFailure?
    case Succeed(a) => t.status.InFlight? && a.outcome.Success?
    case Bury(a, _) =>
      && t.status.InFlight?
      && !a.outcome.Success?
      && (a.outcome.PermanentFailure? || t.attemptCount + 1 >= max)
    case Revive(n, _) => t.status.Dead? && n > t.redriveCount
  }

  lemma ChangeKeepsRecord(max: Limits, c: Change, r: Rec, claimCount: nat, base: nat)
    requires GoodRecord(max, r, claimCount, base)
    requires Lawful(MaxOf(max, r.task.queue), c, r.task)
    ensures GoodRecord(max, Apply(c, r),
              claimCount + (if c.Lease? then 1 else 0),
              if Apply(c, r).task.redriveCount != r.task.redriveCount then |r.task.attempts| else base)
  {
  }

  // ---------- one step at a time ----------

  /** A step in terms of its records: what changed, what appeared, what went. Leases bear
      tokens never minted before; only finished tasks go. */
  ghost predicate Evolves(max: Limits, s: Store, changes: map<TaskId, Change>, s': Store) {
    && changes.Keys == s.tasks.Keys * s'.tasks.Keys
    && (forall id :: id in changes ==>
          && Lawful(MaxOf(max, s.tasks[id].task.queue), changes[id], s.tasks[id].task)
          && s'.tasks[id] == Apply(changes[id], s.tasks[id]))
    && (forall id :: id in s'.tasks && id !in s.tasks ==>
          Fresh(s'.tasks[id].task) && s'.tasks[id].token == "")
    && (forall id :: id in s.tasks && id !in s'.tasks ==>
          s.tasks[id].task.status.Dead? || s.tasks[id].task.status.Succeeded?)
    && s'.minted == s.minted + LeaseTokens(changes)
    && (forall id :: id in changes && changes[id].Lease? ==> changes[id].token !in s.minted)
    && (forall id, other ::
          (id in changes && other in changes && changes[id].Lease? && changes[other].Lease?
           && changes[id].token == changes[other].token) ==> id == other)
  }

  function LeaseTokens(changes: map<TaskId, Change>): set<Token> {
    set id | id in changes && changes[id].Lease? :: changes[id].token
  }

  /** The grants of a reply are exactly the leases of the step. */
  ghost predicate GrantsAre(granted: map<TaskId, Grant>, changes: map<TaskId, Change>, s': Store) {
    && (forall id :: id in granted <==> id in changes && changes[id].Lease?)
    && (forall id :: id in granted ==>
          id in s'.tasks && granted[id] == Grant(changes[id].token, s'.tasks[id].task))
  }

  lemma RecordsKept(max: Limits, s: Store, h: Hist, changes: map<TaskId, Change>, granted: map<TaskId, Grant>, s': Store, h': Hist)
    requires GoodRecords(max, s, h)
    requires Evolves(max, s, changes, s') && GrantsAre(granted, changes, s')
    requires CountsRecorded(h, s, granted, s', h')
    ensures GoodRecords(max, s', h')
  {
    hide GoodRecord, Evolves, GrantsAre, CountsRecorded;
    assert h'.claimCount.Keys == s'.tasks.Keys == h'.base.Keys by { CountsKeys(h, s, granted, s', h'); }
    forall id | id in s'.tasks
      ensures GoodRecord(max, s'.tasks[id], h'.claimCount[id], h'.base[id])
    {
      RecordKept(max, s, h, changes, granted, s', h', id);
    }
  }

  lemma CountsKeys(h: Hist, s: Store, granted: map<TaskId, Grant>, s': Store, h': Hist)
    requires CountsRecorded(h, s, granted, s', h')
    ensures h'.claimCount.Keys == s'.tasks.Keys == h'.base.Keys
  {
  }

  lemma RecordKept(max: Limits, s: Store, h: Hist, changes: map<TaskId, Change>, granted: map<TaskId, Grant>, s': Store, h': Hist, id: TaskId)
    requires GoodRecords(max, s, h)
    requires Evolves(max, s, changes, s') && GrantsAre(granted, changes, s')
    requires CountsRecorded(h, s, granted, s', h') && id in s'.tasks
    ensures id in h'.claimCount && id in h'.base && GoodRecord(max, s'.tasks[id], h'.claimCount[id], h'.base[id])
  {
    if id in s.tasks {
      assert id in changes;
      ChangeKeepsRecord(max, changes[id], s.tasks[id], h.claimCount[id], h.base[id]);
    }
  }

  /** A token held after a step was held before it, or is leased by it. */
  lemma TokenOrigin(max: Limits, s: Store, changes: map<TaskId, Change>, s': Store, id: TaskId)
    requires GoodTokens(s) && Evolves(max, s, changes, s')
    requires id in s'.tasks && s'.tasks[id].token != ""
    ensures id in changes
    ensures s'.tasks[id].token == if changes[id].Lease? then changes[id].token else s.tasks[id].token
    ensures s'.tasks[id].token in s.minted <==> !changes[id].Lease?
    ensures s'.tasks[id].token in s'.minted
  {
    hide Lawful;
    assert id in s.tasks;
    var c := changes[id];
    assert s'.tasks[id] == Apply(c, s.tasks[id]);
    assert c.Lease? ==> c.token in LeaseTokens(changes);
  }

  lemma TokensKept(max: Limits, s: Store, changes: map<TaskId, Change>, s': Store)
    requires GoodTokens(s) && Evolves(max, s, changes, s')
    ensures GoodTokens(s')
  {
    forall id | id in s'.tasks && s'.tasks[id].token != ""
      ensures s'.tasks[id].token in s'.minted
    {
      TokenOrigin(max, s, changes, s', id);
    }
    forall id, other | id in s'.tasks && other in s'.tasks && s'.tasks[id].token != "" && s'.tasks[id].token == s'.tasks[other].token
      ensures id == other
    {
      TokenOrigin(max, s, changes, s', id);
      TokenOrigin(max, s, changes, s', other);
    }
  }

  lemma TokensMatch(granted: map<TaskId, Grant>, changes: map<TaskId, Change>, s': Store)
    requires GrantsAre(granted, changes, s')
    ensures Tokens(granted) == LeaseTokens(changes)
  {
    forall t | t in LeaseTokens(changes) ensures t in Tokens(granted) {
      var id :| id in changes && changes[id].Lease? && changes[id].token == t;
      assert granted[id].token == t;
    }
  }

  /** An old claim stays behind its record. */
  lemma ClaimStaysBehind(max: Limits, s: Store, births: map<TaskId, nat>, changes: map<TaskId, Change>, s': Store,
                         births': map<TaskId, nat>, t: Token, c: ClaimInfo)
    requires Evolves(max, s, changes, s')
    requires t != "" && Behind(s, births, t, c)
    requires forall id :: id in s.tasks ==> WellShaped(s.tasks[id])
    requires Get(births', c.id) == Get(births, c.id) + if c.id in s'.tasks && c.id !in s.tasks then 1 else 0
    ensures Behind(s', births', t, c)
    ensures (c.id in changes && changes[c.id].Lease? && c.birth == Get(births, c.id)
             && c.epoch == s'.tasks[c.id].task.redriveCount) ==> c.count < s'.tasks[c.id].task.attemptCount
  {
    hide LeaseTokens, Justified;
    if c.id in s.tasks && c.id in s'.tasks {
      assert c.id in changes;
    }
  }

  lemma ClaimsKept(max: Limits, s: Store, h: Hist, changes: map<TaskId, Change>, granted: map<TaskId, Grant>, s': Store, h': Hist)
    requires GoodRecords(max, s, h) && GoodTokens(s) && GoodClaims(s, h)
    requires Evolves(max, s, changes, s') && GrantsAre(granted, changes, s')
    requires BirthsRecorded(h, s, s', h') && ClaimsRecorded(h, granted, h') && CountsRecorded(h, s, granted, s', h')
    ensures GoodClaims(s', h')
  {
    TokensMatch(granted, changes, s');
    RecordsKept(max, s, h, changes, granted, s', h');
    forall t | t in h'.claims
      ensures Behind(s', h'.births, t, h'.claims[t])
      ensures h'.claims[t].count >= 0 && h'.claims[t].epoch >= 0
    {
      ClaimBehind(max, s, h, changes, granted, s', h', t);
    }
    forall t, u | t in h'.claims && u in h'.claims && t != u && SameLife(h'.claims[t], h'.claims[u])
      ensures Apart(h'.claims[t], h'.claims[u])
    {
      ClaimsDiffer(max, s, h, changes, granted, s', h', t, u);
    }
  }

  lemma ClaimBehind(max: Limits, s: Store, h: Hist, changes: map<TaskId, Change>, granted: map<TaskId, Grant>,
                    s': Store, h': Hist, t: Token)
    requires GoodRecords(max, s, h) && GoodTokens(s) && GoodClaims(s, h) && GoodRecords(max, s', h')
    requires Evolves(max, s, changes, s') && GrantsAre(granted, changes, s')
    requires BirthsRecorded(h, s, s', h') && ClaimsRecorded(h, granted, h')
    requires t in h'.claims
    ensures Behind(s', h'.births, t, h'.claims[t])
    ensures h'.claims[t].count >= 0 && h'.claims[t].epoch >= 0
  {
    TokensMatch(granted, changes, s');
    if t in h.claims {
      assert h'.claims[t] == h.claims[t];
      ClaimStaysBehind(max, s, h.births, changes, s', h'.births, t, h.claims[t]);
    } else {
      FreshClaimBehind(max, s, h, changes, granted, s', h', t);
    }
  }

  lemma FreshClaimBehind(max: Limits, s: Store, h: Hist, changes: map<TaskId, Change>, granted: map<TaskId, Grant>,
                         s': Store, h': Hist, t: Token)
    requires GoodRecords(max, s', h') && GrantsAre(granted, changes, s')
    requires BirthsRecorded(h, s, s', h') && ClaimsRecorded(h, granted, h')
    requires Evolves(max, s, changes, s') && t in Tokens(granted)
    ensures Behind(s', h'.births, t, h'.claims[t])
    ensures h'.claims[t].count >= 0 && h'.claims[t].epoch >= 0
  {
    var id :| id in granted && granted[id].token == t;
    assert GoodRecord(max, s'.tasks[id], h'.claimCount[id], h'.base[id]);
  }

  lemma ClaimsDiffer(max: Limits, s: Store, h: Hist, changes: map<TaskId, Change>, granted: map<TaskId, Grant>,
                     s': Store, h': Hist, t: Token, u: Token)
    requires GoodRecords(max, s, h) && GoodTokens(s) && GoodClaims(s, h)
    requires Evolves(max, s, changes, s') && GrantsAre(granted, changes, s')
    requires ClaimsRecorded(h, granted, h')
    requires t in h'.claims && u in h'.claims && t != u && SameLife(h'.claims[t], h'.claims[u])
    ensures Apart(h'.claims[t], h'.claims[u])
  {
    TokensMatch(granted, changes, s');
    if t in h.claims && u in h.claims {
      assert h'.claims[t] == h.claims[t] && h'.claims[u] == h.claims[u];
    } else if t in h.claims {
      FreshClaimDiffers(max, s, h, changes, granted, s', h', t, u);
    } else if u in h.claims {
      FreshClaimDiffers(max, s, h, changes, granted, s', h', u, t);
    }
  }

  /** A claim made now saw more attempts than any earlier claim of the same epoch. */
  lemma FreshClaimDiffers(max: Limits, s: Store, h: Hist, changes: map<TaskId, Change>, granted: map<TaskId, Grant>,
                          s': Store, h': Hist, t: Token, u: Token)
    requires GoodRecords(max, s, h) && GoodTokens(s) && GoodClaims(s, h)
    requires Evolves(max, s, changes, s') && GrantsAre(granted, changes, s')
    requires ClaimsRecorded(h, granted, h')
    requires t in h.claims && t in h'.claims && u in h'.claims && u !in h.claims
    requires SameLife(h'.claims[t], h'.claims[u])
    ensures h'.claims[t].queue == h'.claims[u].queue
    ensures h'.claims[t].epoch == h'.claims[u].epoch ==> h'.claims[t].count < h'.claims[u].count
  {
    TokensMatch(granted, changes, s');
    var id :| id in granted && granted[id].token == u;
    assert h'.claims[t] == h.claims[t];
    ClaimStaysBehind(max, s, h.births, changes, s', h.births, t, h.claims[t]);
  }

  /** A held claim was held before the step, on an unchanged history, unless it is new. */
  lemma HeldBefore(max: Limits, s: Store, changes: map<TaskId, Change>, s': Store, id: TaskId, t: Token)
    requires Evolves(max, s, changes, s')
    requires t in s.minted && Holds(s', id, t)
    ensures Holds(s, id, t)
    ensures s'.tasks[id].task.attempts == s.tasks[id].task.attempts
    ensures s'.tasks[id].task.attemptCount == s.tasks[id].task.attemptCount
    ensures s'.tasks[id].task.queue == s.tasks[id].task.queue
  {
    assert id in changes;
  }

  lemma JobsKept(max: Limits, a: Sys, changes: map<TaskId, Change>, act: Act, reply: Reply, b: Sys)
    requires a.hist.claims.Keys == a.store.minted && a.hist.invoked <= a.store.minted
    requires GoodJobs(a.store, a.jobs, a.hist)
    requires Evolves(max, a.store, changes, b.store) && GrantsAre(Granted(reply), changes, b.store)
    requires Enabled(max, a.store, a.jobs, act)
    requires JobsStep(a.jobs, act, reply, b.jobs) && HistStep(a.hist, a.store, act, reply, b.store, b.hist)
    requires act.Poll? || Granted(reply) == map[]
    ensures GoodJobs(b.store, b.jobs, b.hist)
  {
    hide Evolves, GrantsAre, JobsStep, Enabled, HistStep, ClaimsRecorded, GoodJob, Tokens, Granted, Holds;
    GrantsAreFresh(max, a.store, changes, Granted(reply), b.store);
    HistParts(a.hist, a.store, act, reply, b.store, b.hist);
    forall t | t in b.jobs ensures GoodJob(b.store, b.hist, t, b.jobs[t]) {
      JobsAfter(a.jobs, act, reply, b.jobs, t);
      if t in a.jobs {
        JobClaimed(a.store, a.hist, t, a.jobs[t]);
        OldJobKept(max, a, changes, act, Granted(reply), b, t);
      } else {
        NewJobGood(a, act, reply, b, t);
      }
    }
  }

  lemma JobClaimed(s: Store, h: Hist, t: Token, j: Job)
    requires GoodJob(s, h, t, j)
    ensures t in h.claims
  {
  }

  lemma HistParts(h: Hist, s: Store, act: Act, reply: Reply, s': Store, h': Hist)
    requires HistStep(h, s, act, reply, s', h')
    ensures ClaimsRecorded(h, Granted(reply), h')
    ensures h'.invoked == h.invoked + (if act.Start? then {act.token} else {})
  {
  }

  lemma GrantsAreFresh(max: Limits, s: Store, changes: map<TaskId, Change>, granted: map<TaskId, Grant>, s': Store)
    requires Evolves(max, s, changes, s') && GrantsAre(granted, changes, s')
    ensures Tokens(granted) !! s.minted
    ensures forall id :: id in granted ==> id in s'.tasks && granted[id].task == s'.tasks[id].task
  {
  }

  /** A job after a step: started just now, otherwise as it was, or newly granted. */
  lemma JobsAfter(jobs: map<Token, Job>, act: Act, reply: Reply, jobs': map<Token, Job>, t: Token)
    requires JobsStep(jobs, act, reply, jobs') && t in jobs'
    ensures t in jobs && t !in Tokens(Granted(reply)) ==>
              jobs'[t] == jobs[t].(running := jobs[t].running || (act.Start? && act.token == t))
    ensures t !in jobs ==> act.Poll? && t in Tokens(Granted(reply))
  {
  }

  lemma NewJobGood(a: Sys, act: Act, reply: Reply, b: Sys, t: Token)
    requires act.Poll? && JobsStep(a.jobs, act, reply, b.jobs)
    requires ClaimsRecorded(a.hist, Granted(reply), b.hist)
    requires forall id :: id in Granted(reply) ==> id in b.store.tasks && Granted(reply)[id].task == b.store.tasks[id].task
    requires b.hist.invoked == a.hist.invoked && Tokens(Granted(reply)) !! a.hist.invoked
    requires t in b.jobs && t !in a.jobs
    ensures GoodJob(b.store, b.hist, t, b.jobs[t])
  {
    var id :| id in reply.grants && reply.grants[id].token == t;
  }

  lemma OldJobKept(max: Limits, a: Sys, changes: map<TaskId, Change>, act: Act, granted: map<TaskId, Grant>, b: Sys, t: Token)
    requires a.hist.claims.Keys == a.store.minted && GoodJobs(a.store, a.jobs, a.hist)
    requires Evolves(max, a.store, changes, b.store)
    requires ClaimsRecorded(a.hist, granted, b.hist) && Tokens(granted) !! a.store.minted
    requires b.hist.invoked == a.hist.invoked + (if act.Start? then {act.token} else {})
    requires t in a.jobs && t in b.jobs
    requires b.jobs[t] == a.jobs[t].(running := a.jobs[t].running || (act.Start? && act.token == t))
    ensures GoodJob(b.store, b.hist, t, b.jobs[t])
  {
    assert GoodJob(a.store, a.hist, t, a.jobs[t]);
    if Holds(b.store, a.jobs[t].id, t) {
      HeldBefore(max, a.store, changes, b.store, a.jobs[t].id, t);
    }
  }

  lemma InvocationsKept(max: Limits, s: Store, jobs: map<Token, Job>, h: Hist, act: Act, granted: map<TaskId, Grant>, h': Hist)
    requires h.claims.Keys == s.minted && GoodJobs(s, jobs, h) && GoodInvocations(max, h)
    requires ClaimsRecorded(h, granted, h') && Tokens(granted) !! s.minted
    requires Enabled(max, s, jobs, act)
    requires h'.invoked == h.invoked + (if act.Start? then {act.token} else {})
    ensures GoodInvocations(max, h')
  {
    if act.Start? {
      assert GoodJob(s, h, act.token, jobs[act.token]);
    }
  }

  lemma SetDifference<T>(before: set<T>, after: set<T>)
    ensures |after| - |before| == |after - before| - |before - after|
  {
    assert before == (before - after) + (before * after);
    assert after == (after - before) + (before * after);
  }

  /** Any evolution of the store, recorded and reflected in the jobs, keeps the invariant. */
  lemma EvolutionKeepsInv(max: Limits, a: Sys, changes: map<TaskId, Change>, act: Act, reply: Reply, b: Sys)
    requires Inv(max, a)
    requires Evolves(max, a.store, changes, b.store) && GrantsAre(Granted(reply), changes, b.store)
    requires Enabled(max, a.store, a.jobs, act)
    requires JobsStep(a.jobs, act, reply, b.jobs) && HistStep(a.hist, a.store, act, reply, b.store, b.hist)
    requires act.Poll? || Granted(reply) == map[]
    ensures Inv(max, b)
  {
    GrantsAreFresh(max, a.store, changes, Granted(reply), b.store);
    RecordsKept(max, a.store, a.hist, changes, Granted(reply), b.store, b.hist);
    TokensKept(max, a.store, changes, b.store);
    ClaimsKept(max, a.store, a.hist, changes, Granted(reply), b.store, b.hist);
    assert a.hist.invoked <= a.store.minted;
    JobsKept(max, a, changes, act, reply, b);
    InvocationsKept(max, a.store, a.jobs, a.hist, act, Granted(reply), b.hist);
    SetDifference(a.store.tasks.Keys, b.store.tasks.Keys);
  }

  // ---------- every action is an evolution ----------

  ghost function AllKept(s: Store): map<TaskId, Change> {
    map id | id in s.tasks :: Keep
  }

  lemma NothingEvolves(max: Limits, s: Store)
    ensures Evolves(max, s, AllKept(s), s) && GrantsAre(map[], AllKept(s), s)
  {
    assert LeaseTokens(AllKept(s)) == {};
  }

  lemma SubmitEvolves(max: Limits, s: Store, id: TaskId, task: Task, reply: Reply, s': Store)
    requires Fresh(task) && EnqueueStep(s, id, task, reply, s')
    ensures Evolves(max, s, AllKept(s), s') && GrantsAre(map[], AllKept(s), s')
  {
    NothingEvolves(max, s);
  }

  ghost function LeaseChanges(s: Store, grants: map<TaskId, Grant>, lease: int, now: Time): map<TaskId, Change> {
    map id | id in s.tasks :: if id in grants then Lease(grants[id].token, lease, now) else Keep
  }

  lemma PollEvolves(max: Limits, s: Store, queue: string, limit: int, lease: int, now: Time, reply: Reply, s': Store)
    returns (changes: map<TaskId, Change>)
    requires ClaimStep(s, queue, limit, lease, now, reply, s')
    ensures Evolves(max, s, changes, s') && GrantsAre(reply.grants, changes, s')
  {
    if limit <= 0 {
      NothingEvolves(max, s);
      changes := AllKept(s);
    } else {
      changes := LeaseChanges(s, reply.grants, lease, now);
      assert GrantsAre(reply.grants, changes, s');
      TokensMatch(reply.grants, changes, s');
      LeasesEvolve(max, s, reply.grants, lease, now, s');
    }
  }

  lemma LeasesEvolve(max: Limits, s: Store, grants: map<TaskId, Grant>, lease: int, now: Time, s': Store)
    requires forall id :: id in grants ==> id in s.tasks && IsDue(s.tasks[id].task, now)
    requires forall id :: id in grants ==> grants[id].token != "" && grants[id].token !in s.minted
    requires forall id, other :: id in grants && other in grants && grants[id].token == grants[other].token ==> id == other
    requires s'.minted == s.minted + LeaseTokens(LeaseChanges(s, grants, lease, now))
    requires s'.tasks.Keys == s.tasks.Keys
    requires forall id :: id in s.tasks ==>
               s'.tasks[id] == if id in grants then Leased(s.tasks[id], grants[id].token, lease, now) else s.tasks[id]
    ensures Evolves(max, s, LeaseChanges(s, grants, lease, now), s')
  {
    var changes := LeaseChanges(s, grants, lease, now);
    forall id | id in changes
      ensures Lawful(MaxOf(max, s.tasks[id].task.queue), changes[id], s.tasks[id].task)
      ensures s'.tasks[id] == Apply(changes[id], s.tasks[id])
    {
      if id in grants { assert changes[id] == Lease(grants[id].token, lease, now); } else { assert changes[id].Keep?; }
    }
    forall id, other | id in changes && other in changes && changes[id].Lease? && changes[other].Lease? && changes[id].token == changes[other].token
      ensures id == other
    {
      assert id in grants && other in grants;
    }
  }

  /** A fenced write that the engine planned, or that bears no outcome, or that is stale. */
  lemma WriteEvolves(max: Limits, s: Store, call: Call, c: Change, reply: Reply, s': Store)
    returns (changes: map<TaskId, Change>)
    requires Fenced(call) && FencedStep(s, call, reply, s')
    requires Holds(s, call.id, call.token) ==>
               && !c.Lease?
               && Lawful(MaxOf(max, s.tasks[call.id].task.queue), c, s.tasks[call.id].task)
               && Written(s.tasks[call.id], call) == Apply(c, s.tasks[call.id])
    ensures Evolves(max, s, changes, s') && GrantsAre(map[], changes, s')
  {
    NothingEvolves(max, s);
    changes := AllKept(s);
    if Holds(s, call.id, call.token) {
      changes := changes[call.id := c];
      assert LeaseTokens(changes) == {};
    }
  }

  /** The change an outcome write makes. */
  function OutcomeChange(call: Call): Change
    requires Outcomes(call)
  {
    match call
    case Reschedule(_, _, a, at) => Retry(a, at)
    case Complete(_, _, a, _) => Succeed(a)
    case DeadLetter(_, _, a, now) => Bury(a, now)
  }

  lemma FinishEvolves(max: Limits, a: Sys, token: Token, x: Inputs, reply: Reply, s': Store)
    returns (changes: map<TaskId, Change>)
    requires GoodJobs(a.store, a.jobs, a.hist) && token in a.jobs
    requires StoreStep(max, a.store, a.jobs, Finish(token, x), reply, s')
    ensures Evolves(max, a.store, changes, s') && GrantsAre(map[], changes, s')
  {
    var j := a.jobs[token];
    assert GoodJob(a.store, a.hist, token, j);
    var call := Plan(MaxOf(max, j.task.queue), j.id, token, j.task, x);
    changes := WriteEvolves(max, a.store, call, OutcomeChange(call), reply, s');
  }

  lemma RedriveEvolves(max: Limits, s: Store, queue: string, sel: Selector, now: Time, reply: Reply, s': Store)
    returns (changes: map<TaskId, Change>)
    requires RedriveStep(s, queue, sel, now, reply, s')
    ensures Evolves(max, s, changes, s') && GrantsAre(map[], changes, s')
  {
    var chosen := Selection(s, queue, sel);
    changes := ReviveAll(max, s, chosen, now, s');
  }

  lemma ReviveAll(max: Limits, s: Store, chosen: set<TaskId>, now: Time, s': Store)
    returns (changes: map<TaskId, Change>)
    requires s'.minted == s.minted && s'.tasks.Keys == s.tasks.Keys
    requires forall id :: id in s.tasks && id !in chosen ==> s'.tasks[id] == s.tasks[id]
    requires forall id :: id in chosen ==>
               && id in s.tasks && s.tasks[id].task.status.Dead?
               && s'.tasks[id] == Redriven(s.tasks[id], s'.tasks[id].task.redriveCount, now)
               && s'.tasks[id].task.redriveCount > s.tasks[id].task.redriveCount
    ensures Evolves(max, s, changes, s') && GrantsAre(map[], changes, s')
  {
    changes := map id | id in s.tasks ::
      if id in chosen then Revive(s'.tasks[id].task.redriveCount, now) else Keep;
    assert LeaseTokens(changes) == {};
    forall id | id in changes
      ensures Lawful(MaxOf(max, s.tasks[id].task.queue), changes[id], s.tasks[id].task)
      ensures s'.tasks[id] == Apply(changes[id], s.tasks[id]) && !changes[id].Lease?
    {
      if id in chosen { assert changes[id].Revive?; } else { assert changes[id].Keep?; }
    }
  }

  lemma RemovalEvolves(max: Limits, s: Store, s': Store)
    returns (changes: map<TaskId, Change>)
    requires s'.minted == s.minted && s'.tasks.Keys <= s.tasks.Keys
    requires forall id :: id in s'.tasks ==> s'.tasks[id] == s.tasks[id]
    requires forall id :: id in s.tasks && id !in s'.tasks ==>
               s.tasks[id].task.status.Dead? || s.tasks[id].task.status.Succeeded?
    ensures Evolves(max, s, changes, s') && GrantsAre(map[], changes, s')
  {
    changes := map id | id in s'.tasks :: Keep;
    assert LeaseTokens(changes) == {};
  }

  lemma OtherEvolves(max: Limits, s: Store, call: Call, reply: Reply, s': Store)
    returns (changes: map<TaskId, Change>)
    requires Allowed(s, call) && Step(s, call, reply, s')
    ensures Evolves(max, s, changes, s') && GrantsAre(map[], changes, s') && !reply.Claimed?
  {
    match call
    case Redrive(queue, sel, now) => changes := RedriveEvolves(max, s, queue, sel, now, reply, s');
    case Purge(queue, sel) => changes := RemovalEvolves(max, s, s');
    case PurgeSucceeded(queue, _) => changes := RemovalEvolves(max, s, s');
    case ExtendLease(_, _, lease, now) => changes := WriteEvolves(max, s, call, Extend(lease, now), reply, s');
    case _ => changes := WriteEvolves(max, s, call, Keep, reply, s');
  }

  lemma StepEvolves(max: Limits, a: Sys, act: Act, reply: Reply, s': Store)
    returns (changes: map<TaskId, Change>)
    requires GoodJobs(a.store, a.jobs, a.hist)
    requires Enabled(max, a.store, a.jobs, act) && StoreStep(max, a.store, a.jobs, act, reply, s')
    ensures Evolves(max, a.store, changes, s') && GrantsAre(Granted(reply), changes, s')
    ensures act.Poll? || Granted(reply) == map[]
  {
    match act
    case Submit(id, task) => SubmitEvolves(max, a.store, id, task, reply, s'); changes := AllKept(a.store);
    case Poll(queue, limit, lease, now) => changes := PollEvolves(max, a.store, queue, limit, lease, now, reply, s');
    case Finish(token, x) => changes := FinishEvolves(max, a, token, x, reply, s');
    case Other(call) => changes := OtherEvolves(max, a.store, call, reply, s');
    case _ => NothingEvolves(max, a.store); changes := AllKept(a.store);
  }

  /** Every step of a run keeps the invariant. */
  lemma StepKeepsInv(max: Limits, a: Sys, act: Act, reply: Reply, b: Sys)
    requires Inv(max, a) && Next(max, a, act, reply, b)
    ensures Inv(max, b)
  {
    hide Evolves, GrantsAre, Enabled, StoreStep, JobsStep, HistStep;
    var changes := StepEvolves(max, a, act, reply, b.store);
    EvolutionKeepsInv(max, a, changes, act, reply, b);
  }
}
