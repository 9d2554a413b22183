/** Where the state of a task comes from. In every run the record of a task is exactly what the
    last call that concerned it said, field by field, and calls concern the tasks they name and
    no others. Both backends inherit this, since their runs are runs of the contract. */
module Provenance {
  import opened Spi
  import opened Lifecycle
  import opened Engine
  import opened System
  import opened Invariant
  import opened Guarantees
  import B = Backoff

  /** The calls that concern a task: its admission, a grant, an accepted fenced call, a redrive
      that selects it. */
  ghost predicate Concerns(s: Store, call: Call, reply: Reply, id: TaskId) {
    match call
    case Enqueue(other, _) => other == id && id !in s.tasks
    case ClaimDue(_, _, _, _) => reply.Claimed? && id in reply.grants
    case Redrive(queue, sel, _) => Chosen(s, queue, sel, id)
    case Purge(_, _) => false
    case PurgeSucceeded(_, _) => false
    case _ => call.id == id && reply == Done
  }

  /** The dead tasks of a queue that a selector names: by id, or else by filter. */
  predicate Chosen(s: Store, queue: string, sel: Selector, id: TaskId) {
    && id in s.tasks && s.tasks[id].task.status == Dead && s.tasks[id].task.queue == queue
    && (if |sel.ids| > 0 then id in sel.ids
        else sel.filter.Some? && InFilter(s.tasks[id].task, s.tasks[id].deadAt, sel.filter.value))
  }

  /** A dead-letter filter, dimension by dimension: the time range includes its lower end and
      excludes its upper end. */
  predicate InFilter(t: Task, deadAt: Time, f: DlqFilter) {
    && (f.handlerRef == "" || t.handlerRef == f.handlerRef)
    && (f.errorType == "" ||
        (t.attempts != [] && t.attempts[|t.attempts| - 1].error.Some? && t.attempts[|t.attempts| - 1].error.value.kind == f.errorType))
    && (f.deadAfter == None || deadAt >= f.deadAfter.value)
    && (f.deadBefore == None || deadAt < f.deadBefore.value)
  }

  /** The history goes on with one more attempt, which is the one given; numbers are not part of
      the contract. */
  predicate GoesOn(before: Task, after: Task, a: Attempt) {
    && after.attemptCount == before.attemptCount + 1
    && |after.attempts| == |before.attempts| + 1 && after.attempts[..|before.attempts|] == before.attempts
    && var last := after.attempts[|before.attempts|];
       && last.outcome == a.outcome && last.error == a.error && last.finishedAt == a.finishedAt
       && (a.outcome != LeaseExpired ==> last.startedAt == a.startedAt)
  }

  predicate SameHistory(before: Task, after: Task) {
    after.attempts == before.attempts && after.attemptCount == before.attemptCount
  }

  /** The record after a call that concerned it. */
  ghost predicate AsTold(call: Call, reply: Reply, before: Option<Rec>, id: TaskId, after: Rec) {
    match call
    case Enqueue(_, t) =>
      && after.task.(attempts := []) == t.(attempts := []) && |after.task.attempts| == |t.attempts| && after.token == ""
    case ClaimDue(_, _, lease, now) =>
      && before.Some? && Kept(before.value, after)
      && after.task.status == InFlight && after.task.leaseAt == Some(now + lease) && after.task.nextAt == before.value.task.nextAt
      && reply.Claimed? && id in reply.grants && after.token == reply.grants[id].token
      && (if before.value.task.status == InFlight then
            GoesOn(before.value.task, after.task,
                   Attempt(0, 0, Some(now), LeaseExpired, Some(Error("rdq.LeaseExpired", "lease expired before an outcome was reported"))))
          else SameHistory(before.value.task, after.task))
    case ExtendLease(_, _, lease, now) =>
      && before.Some? && before.value.task.status == InFlight
      && after == before.value.(task := before.value.task.(leaseAt := Some(now + lease)))
    case Reschedule(_, _, a, nextAt) =>
      && before.Some? && Kept(before.value, after) && GoesOn(before.value.task, after.task, a)
      && after.task.status == Pending && after.task.nextAt == Some(nextAt) && after.task.leaseAt == None && after.token == ""
    case Complete(_, _, a, _) =>
      && before.Some? && Kept(before.value, after) && GoesOn(before.value.task, after.task, a)
      && after.task.status == Succeeded && after.task.nextAt == None && after.task.leaseAt == None && after.token == ""
    case DeadLetter(_, _, a, now) =>
      && before.Some? && Kept(before.value, after) && GoesOn(before.value.task, after.task, a)
      && after.task.status == Dead && after.task.nextAt == None && after.task.leaseAt == None && after.token == ""
      && after.deadAt == now
    case Redrive(_, sel, now) =>
      && before.Some? && SameIdentity(before.value.task, after.task)
      && after.task.attempts == before.value.task.attempts && after.task.attemptCount == 0
      && after.task.redriveCount > before.value.task.redriveCount
      && (AtMostOnce(sel.ids, id) ==> after.task.redriveCount == before.value.task.redriveCount + 1)
      && after.task.status == Pending && after.task.nextAt == Some(now) && after.task.leaseAt == None
    case _ => false
  }

  predicate Kept(before: Rec, after: Rec) {
    SameIdentity(before.task, after.task) && after.task.redriveCount == before.task.redriveCount
  }

  function Before(s: Store, id: TaskId): Option<Rec> { if id in s.tasks then Some(s.tasks[id]) else None }

  // ---------- one call ----------

  lemma FilterIs(t: Task, deadAt: Time, f: DlqFilter)
    ensures MatchesFilter(t, deadAt, f) <==> InFilter(t, deadAt, f)
  {
  }

  lemma ChosenAre(s: Store, queue: string, sel: Selector)
    ensures forall id :: id in Selection(s, queue, sel) <==> Chosen(s, queue, sel, id)
  {
    hide MatchesFilter, InFilter;
    forall id ensures id in Selection(s, queue, sel) <==> Chosen(s, queue, sel, id) {
      if sel.filter.Some? && id in s.tasks {
        FilterIs(s.tasks[id].task, s.tasks[id].deadAt, sel.filter.value);
      }
    }
  }

  lemma FencedAsTold(s: Store, call: Call, reply: Reply, s': Store, id: TaskId)
    requires Fenced(call) && FencedStep(s, call, reply, s') && id in s'.tasks
    ensures if Concerns(s, call, reply, id) then AsTold(call, reply, Before(s, id), id, s'.tasks[id])
            else id in s.tasks && s'.tasks[id] == s.tasks[id]
  {
    if Holds(s, call.id, call.token) && call.id == id && call.ExtendLease? {
      assert s'.tasks[id] == Extended(s.tasks[id], call.lease, call.now);
    }
  }

  lemma ClaimAsTold(s: Store, call: Call, reply: Reply, s': Store, id: TaskId)
    requires call.ClaimDue? && ClaimStep(s, call.queue, call.limit, call.lease, call.now, reply, s') && id in s'.tasks
    ensures if Concerns(s, call, reply, id) then AsTold(call, reply, Before(s, id), id, s'.tasks[id])
            else id in s.tasks && s'.tasks[id] == s.tasks[id]
  {
    hide FairGrants, DueSet;
  }

  lemma RedriveAsTold(s: Store, call: Call, reply: Reply, s': Store, id: TaskId)
    requires call.Redrive? && RedriveStep(s, call.queue, call.sel, call.now, reply, s') && id in s'.tasks
    ensures if Concerns(s, call, reply, id) then AsTold(call, reply, Before(s, id), id, s'.tasks[id])
            else id in s.tasks && s'.tasks[id] == s.tasks[id]
  {
    hide Chosen, Selection, AtMostOnce;
    ChosenAre(s, call.queue, call.sel);
  }

  /** A call changes the records it concerns as it says, and leaves every other record alone. */
  lemma CallAsTold(s: Store, call: Call, reply: Reply, s': Store, id: TaskId)
    requires Step(s, call, reply, s') && id in s'.tasks
    ensures if Concerns(s, call, reply, id) then AsTold(call, reply, Before(s, id), id, s'.tasks[id])
            else id in s.tasks && s'.tasks[id] == s.tasks[id]
  {
    hide ClaimStep, RedriveStep, FencedStep, SweepStep;
    match call
    case Enqueue(_, _) =>
    case ClaimDue(_, _, _, _) => ClaimAsTold(s, call, reply, s', id);
    case Redrive(_, _, _) => RedriveAsTold(s, call, reply, s', id);
    case Purge(_, _) => PurgeLeaves(s, call, reply, s', id);
    case PurgeSucceeded(queue, _) => SweepLeaves(s, queue, reply, s', id);
    case _ => FencedAsTold(s, call, reply, s', id);
  }

  lemma PurgeLeaves(s: Store, call: Call, reply: Reply, s': Store, id: TaskId)
    requires call.Purge? && PurgeStep(s, call.queue, call.sel, reply, s') && id in s'.tasks
    ensures id in s.tasks && s'.tasks[id] == s.tasks[id]
  {
    hide Selection;
  }

  lemma SweepLeaves(s: Store, queue: string, reply: Reply, s': Store, id: TaskId)
    requires SweepStep(s, queue, reply, s') && id in s'.tasks
    ensures id in s.tasks && s'.tasks[id] == s.tasks[id]
  {
  }

  // ---------- runs ----------

  /** The i-th action concerns the task and leaves it as the action's call says. */
  ghost predicate ToldAt(max: Limits, r: Run, i: nat, id: TaskId)
    requires |r.states| == |r.acts| + 1 == |r.replies| + 1 && i < |r.acts|
  {
    && var call := CallOf(max, r.states[i].jobs, r.acts[i]);
       && call.Some?
       && Concerns(r.states[i].store, call.value, r.replies[i], id)
       && id in r.states[i + 1].store.tasks
       && AsTold(call.value, r.replies[i], Before(r.states[i].store, id), id, r.states[i + 1].store.tasks[id])
  }

  lemma StepAsTold(max: Limits, r: Run, i: nat, id: TaskId)
    requires IsRun(max, r) && i < |r.acts| && id in r.states[i + 1].store.tasks
    ensures ToldAt(max, r, i, id) || (id in r.states[i].store.tasks && r.states[i + 1].store.tasks[id] == r.states[i].store.tasks[id])
  {
    hide Enabled, JobsStep, HistStep, Step, Concerns, AsTold, CallOf;
    assert Next(max, r.states[i], r.acts[i], r.replies[i], r.states[i + 1]);
    var call := CallOf(max, r.states[i].jobs, r.acts[i]);
    if call.Some? {
      CallAsTold(r.states[i].store, call.value, r.replies[i], r.states[i + 1].store, id);
    }
  }

  /** The record of a task in any state is what the last action that concerned it said, and has
      been so ever since. */
  lemma {:induction false} LastTold(max: Limits, r: Run, i: nat, id: TaskId) returns (j: nat)
    requires IsRun(max, r) && i < |r.states| && id in r.states[i].store.tasks
    ensures j < i && ToldAt(max, r, j, id)
    ensures forall k :: j < k <= i ==> id in r.states[k].store.tasks && r.states[k].store.tasks[id] == r.states[i].store.tasks[id]
    decreases i
  {
    hide Next, ToldAt;
    if i > 0 {
      StepAsTold(max, r, i - 1, id);
      if ToldAt(max, r, i - 1, id) {
        j := i - 1;
      } else {
        j := LastTold(max, r, i - 1, id);
      }
    }
  }

  // ---------- who leaves, and the replies ----------

  /** A purge removes exactly the dead tasks it selects; nothing else but a sweep removes
      anything, and that only succeeded tasks of its queue. */
  lemma LeavesIf(s: Store, call: Call, reply: Reply, s': Store, id: TaskId)
    requires Step(s, call, reply, s') && id in s.tasks
    ensures call.Purge? ==> (id !in s'.tasks <==> Chosen(s, call.queue, call.sel, id))
    ensures call.PurgeSucceeded? && id !in s'.tasks ==> s.tasks[id].task.status == Succeeded && s.tasks[id].task.queue == call.queue
    ensures !call.Purge? && !call.PurgeSucceeded? ==> id in s'.tasks
  {
    hide Chosen, Selection, FairGrants;
    if call.Purge? {
      ChosenAre(s, call.queue, call.sel);
    }
  }

  /** What a caller is told: a clash of queues, a stale claim, and how many tasks were chosen
      when none was named twice. */
  lemma RepliesAre(s: Store, call: Call, reply: Reply, s': Store)
    requires Step(s, call, reply, s')
    ensures call.Enqueue? ==>
              reply == if call.id in s.tasks && s.tasks[call.id].task.queue != call.task.queue then IdConflict else Done
    ensures Fenced(call) ==>
              reply == (if call.id in s.tasks && s.tasks[call.id].task.status == InFlight && s.tasks[call.id].token == call.token != ""
                        then Done else StaleClaim)
    ensures (call.Redrive? || call.Purge?) && (forall id :: Chosen(s, call.queue, call.sel, id) ==> AtMostOnce(call.sel.ids, id)) ==>
              reply == Count(|set id | id in s.tasks && Chosen(s, call.queue, call.sel, id)|)
    ensures call.PurgeSucceeded? ==> reply == Count(|s.tasks| - |s'.tasks|)
  {
    hide Chosen, Selection, FairGrants, AtMostOnce;
    if call.Redrive? || call.Purge? {
      SelectionIs(s, call.queue, call.sel);
    }
  }

  lemma SelectionIs(s: Store, queue: string, sel: Selector)
    ensures Selection(s, queue, sel) == set id | id in s.tasks && Chosen(s, queue, sel, id)
    ensures forall id :: id in Selection(s, queue, sel) <==> Chosen(s, queue, sel, id)
  {
    hide Chosen, Selection;
    ChosenAre(s, queue, sel);
    SelectionInStore(s, queue, sel);
  }

  lemma SelectionInStore(s: Store, queue: string, sel: Selector)
    ensures forall id :: id in Selection(s, queue, sel) ==> id in s.tasks
  {
  }

  // ---------- due tasks and leases ----------

  /** Waiting and its time has come, or leased and the lease has lapsed. */
  predicate Ripe(t: Task, now: Time) {
    || (t.status == Pending && t.nextAt.Some? && t.nextAt.value <= now)
    || (t.status == InFlight && t.leaseAt.Some? && t.leaseAt.value <= now)
  }

  function RipeIn(s: Store, queue: string, now: Time): set<TaskId> {
    set id | id in s.tasks && s.tasks[id].task.queue == queue && Ripe(s.tasks[id].task, now)
  }

  /** A poll is granted ripe tasks of its queue and only those, as many as it asked for or as there
      are, and the longest due first. */
  lemma GrantsAreRipe(s: Store, queue: string, limit: int, lease: int, now: Time, reply: Reply, s': Store)
    requires ClaimStep(s, queue, limit, lease, now, reply, s')
    ensures reply.grants.Keys <= RipeIn(s, queue, now)
    ensures |reply.grants| == if limit <= 0 then 0 else Min(limit, |RipeIn(s, queue, now)|)
    ensures forall id, other ::
              (id in reply.grants && other in RipeIn(s, queue, now) && other !in reply.grants
               && s.tasks[id].task.nextAt.Some? && s.tasks[other].task.nextAt.Some?)
              ==> s.tasks[id].task.nextAt.value <= s.tasks[other].task.nextAt.value
    ensures forall id :: id in reply.grants ==> id in s'.tasks && reply.grants[id].task == s'.tasks[id].task
  {
    assert DueSet(s, queue, now) == RipeIn(s, queue, now);
  }

  /** A leased task is handed out again only after a lease of that length: the last action that
      concerned it was a grant or a renewal whose lease has run out on the clock of the poll. */
  lemma NoEarlyReclaim(max: Limits, r: Run, i: nat, id: TaskId) returns (j: nat)
    requires IsRun(max, r) && i < |r.acts| && r.acts[i].Poll? && r.replies[i].Claimed? && id in r.replies[i].grants
    requires id in r.states[i].store.tasks && r.states[i].store.tasks[id].task.status == InFlight
    ensures j < i && ToldAt(max, r, j, id)
    ensures var call := CallOf(max, r.states[j].jobs, r.acts[j]).value;
            && (call.ClaimDue? || call.ExtendLease?)
            && r.states[i].store.tasks[id].task.leaseAt == Some(call.now + call.lease)
            && call.now + call.lease <= r.acts[i].now
    ensures forall k :: j < k <= i ==> id in r.states[k].store.tasks && r.states[k].store.tasks[id] == r.states[i].store.tasks[id]
  {
    hide Enabled, JobsStep, HistStep, FairGrants, GoesOn, SameHistory, RipeIn;
    j := LastTold(max, r, i, id);
    assert Next(max, r.states[i], r.acts[i], r.replies[i], r.states[i + 1]);
    PollRipe(max, r, i, id);
    LeasedBy(max, r, i, j, id);
  }

  lemma PollRipe(max: Limits, r: Run, i: nat, id: TaskId)
    requires IsRun(max, r) && i < |r.acts| && r.acts[i].Poll? && r.replies[i].Claimed? && id in r.replies[i].grants
    ensures id in r.states[i].store.tasks && Ripe(r.states[i].store.tasks[id].task, r.acts[i].now)
  {
    hide Enabled, JobsStep, HistStep, ClaimStep, Ripe;
    var act := r.acts[i];
    assert Next(max, r.states[i], act, r.replies[i], r.states[i + 1]);
    GrantsAreRipe(r.states[i].store, act.queue, act.limit, act.lease, act.now, r.replies[i], r.states[i + 1].store);
  }

  lemma LeasedBy(max: Limits, r: Run, i: nat, j: nat, id: TaskId)
    requires IsRun(max, r) && i < |r.states| && j < i && ToldAt(max, r, j, id) && id in r.states[i].store.tasks
    requires r.states[j + 1].store.tasks[id] == r.states[i].store.tasks[id] && r.states[i].store.tasks[id].task.status == InFlight
    ensures var call := CallOf(max, r.states[j].jobs, r.acts[j]).value;
            && (call.ClaimDue? || call.ExtendLease?)
            && r.states[i].store.tasks[id].task.leaseAt == Some(call.now + call.lease)
  {
    hide GoesOn, SameHistory, StoreStep, JobsStep, HistStep;
    assert Next(max, r.states[j], r.acts[j], r.replies[j], r.states[j + 1]);
  }

  // ---------- a task over time ----------

  /** While a task stays, its identity does not change, its history only grows at the end, and
      it is never redriven less often. */
  ghost predicate Continues(t: Task, t': Task) {
    && SameIdentity(t, t') && t.attempts <= t'.attempts && t.redriveCount <= t'.redriveCount
  }

  lemma {:induction false} TaskContinues(max: Limits, r: Run, i: nat, j: nat, id: TaskId)
    requires IsRun(max, r) && i <= j < |r.states| && forall k :: i <= k <= j ==> id in r.states[k].store.tasks
    ensures Continues(r.states[i].store.tasks[id].task, r.states[j].store.tasks[id].task)
    decreases j
  {
    hide Next, ToldAt;
    if i < j {
      TaskContinues(max, r, i, j - 1, id);
      StepAsTold(max, r, j - 1, id);
      if ToldAt(max, r, j - 1, id) {
        ToldContinues(max, r, j - 1, id);
      }
    }
  }

  lemma ToldContinues(max: Limits, r: Run, i: nat, id: TaskId)
    requires IsRun(max, r) && i < |r.acts| && ToldAt(max, r, i, id) && id in r.states[i].store.tasks
    ensures Continues(r.states[i].store.tasks[id].task, r.states[i + 1].store.tasks[id].task)
  {
    hide CallOf, Next;
  }

  /** A worker that writes the outcome of a claim it holds carries the task to the outcome that
      the budget, the route and the handler's answer call for. */
  lemma OutcomeCarried(max: Limits, r: Run, i: nat, token: Token, x: Inputs)
    requires IsRun(max, r) && i < |r.acts| && r.acts[i] == Finish(token, x) && token in r.states[i].jobs
    requires Holds(r.states[i].store, r.states[i].jobs[token].id, token)
    ensures var id := r.states[i].jobs[token].id;
            && id in r.states[i + 1].store.tasks
            && var before, after := r.states[i].store.tasks[id].task, r.states[i + 1].store.tasks[id].task;
               && Carried(MaxOf(max, before.queue), before.attemptCount, x, before, after)
               && (after.status == Dead ==> r.states[i + 1].store.tasks[id].deadAt == x.now)
  {
    hide JobsStep, HistStep, Plan, Carried, FencedStep, Inv, Enabled;
    EveryStateGood(max, r, i);
    HeldCopy(max, r.states[i], token);
    assert Next(max, r.states[i], r.acts[i], r.replies[i], r.states[i + 1]);
    var j := r.states[i].jobs[token];
    PlanIsFenced(MaxOf(max, j.task.queue), j.id, token, j.task, x);
    PlanCarried(r.states[i].store, MaxOf(max, j.task.queue), j.id, token, j.task, x, r.replies[i], r.states[i + 1].store);
  }

  lemma HeldCopy(max: Limits, a: Sys, token: Token)
    requires Inv(max, a) && token in a.jobs && Holds(a.store, a.jobs[token].id, token)
    ensures var j := a.jobs[token];
            var t := a.store.tasks[j.id].task;
            t.attemptCount == j.task.attemptCount && t.queue == j.task.queue
  {
    hide GoodRecords, GoodTokens, GoodClaims, GoodInvocations, Conserved;
    assert GoodJob(a.store, a.hist, token, a.jobs[token]);
  }

  lemma PlanIsFenced(max: nat, id: TaskId, token: Token, copy: Task, x: Inputs)
    ensures var call := Plan(max, id, token, copy, x);
            Fenced(call) && call.id == id && call.token == token
  {
    hide B.Delay;
  }

  lemma PlanCarried(s: Store, max: nat, id: TaskId, token: Token, copy: Task, x: Inputs, reply: Reply, s': Store)
    requires Holds(s, id, token) && copy.attemptCount == s.tasks[id].task.attemptCount
    requires Fenced(Plan(max, id, token, copy, x)) && FencedStep(s, Plan(max, id, token, copy, x), reply, s')
    ensures id in s'.tasks && Carried(max, copy.attemptCount, x, s.tasks[id].task, s'.tasks[id].task)
    ensures s'.tasks[id].task.status == Dead ==> s'.tasks[id].deadAt == x.now
  {
    hide B.Delay;
    var before, after := s.tasks[id].task, s'.tasks[id].task;
    assert after.attempts[..|before.attempts|] == before.attempts;
  }
}
