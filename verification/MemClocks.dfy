/** The clock readings the in-memory store keeps beside a task and nobody else sees: when it was
    claimed and when it ended. They decide how a lost claim is recorded and what a sweep takes. */
module MemClocks {
  import opened Spi
  import opened Ordering
  import opened System
  import opened Backends
  import opened MemModel
  import L = Lifecycle
  import MR = MemRefines

  // ---------- one call ----------

  /** After an accepted completion, a sweep of the queue takes the task exactly when it was
      completed before the cut-off. */
  lemma CompleteThenSweep(m: State, id: TaskId, token: Token, a: Attempt, now: Time, olderThan: Time)
    requires MR.Apply(m, Complete(id, token, a, now)).1 == Done
    ensures var done := MR.Apply(m, Complete(id, token, a, now)).0;
            && id in done.tasks
            && var swept := MR.Apply(done, PurgeSucceeded(done.tasks[id].env.queue, olderThan)).0;
               id !in swept.tasks <==> now < olderThan
  {
  }

  /** Only a completion makes a task succeeded, and it notes its time. */
  lemma SucceededStep(m: State, call: Call, id: TaskId)
    requires call.Enqueue? ==> Fresh(call.task)
    requires var m' := MR.Apply(m, call).0; id in m'.tasks && m'.tasks[id].env.status == Succeeded
    ensures var (m', reply) := MR.Apply(m, call);
            if call.Complete? && call.id == id && reply == Done then m'.tasks[id].terminalAt == call.now
            else id in m.tasks && m'.tasks[id] == m.tasks[id]
  {
    hide Taken, Picks, PickCount, Selection, Aged, ClaimMany, Claim, MR.Grants;
    match call
    case ClaimDue(queue, limit, lease, now) =>
      TakenIds(m, queue, limit, now);
      ClaimManyPointwise(m, Taken(m, queue, limit, now), lease, now);
      NotClaimed(m, Taken(m, queue, limit, now), lease, now, MR.Apply(m, call).0, id);
    case _ =>
  }

  lemma NotClaimed(m: State, keys: seq<Key>, lease: int, now: Time, m': State, id: TaskId)
    requires (forall k :: k in keys ==> k.id in m.tasks) && ClaimedAre(m, keys, lease, now, m')
    requires id in m'.tasks && m'.tasks[id].env.status == Succeeded
    ensures id in m.tasks && m'.tasks[id] == m.tasks[id]
  {
    if id in KeyIds(keys) {
      var i := MR.IdIndex(keys, id);
    }
  }

  /** A claim notes its time; a heartbeat does not touch it. */
  lemma InFlightStep(m: State, call: Call, id: TaskId)
    requires call.Enqueue? ==> Fresh(call.task)
    requires var m' := MR.Apply(m, call).0; id in m'.tasks && m'.tasks[id].env.status == InFlight
    ensures var (m', reply) := MR.Apply(m, call);
            if reply.Claimed? && id in reply.grants then
              && call.ClaimDue? && id in m.tasks && m'.tasks[id].claimedAt == call.now && m'.tasks[id].token == reply.grants[id].token
              && (m.tasks[id].env.status == InFlight ==>
                    m'.tasks[id].env.attempts == m.tasks[id].env.attempts +
                      [Attempt(m.tasks[id].env.attemptCount + 1, m.tasks[id].claimedAt, Some(call.now), LeaseExpired,
                               Some(Error("rdq.LeaseExpired", "lease expired before an outcome was reported")))])
            else
              && id in m.tasks && m.tasks[id].env.status == InFlight
              && m'.tasks[id].claimedAt == m.tasks[id].claimedAt && m'.tasks[id].token == m.tasks[id].token
  {
    hide Taken, Picks, PickCount, Selection, Aged, ClaimMany, Claim, TokenOf;
    match call
    case ClaimDue(queue, limit, lease, now) =>
      TakenIds(m, queue, limit, now);
      ClaimManyPointwise(m, Taken(m, queue, limit, now), lease, now);
      ClaimedOrNot(m, Taken(m, queue, limit, now), lease, now, MR.Apply(m, call).0, id);
    case _ =>
  }

  lemma ClaimedOrNot(m: State, keys: seq<Key>, lease: int, now: Time, m': State, id: TaskId)
    requires (forall k :: k in keys ==> k.id in m.tasks) && ClaimedAre(m, keys, lease, now, m') && id in m'.tasks
    ensures id in m.tasks
    ensures if id in KeyIds(keys) then
              && m'.tasks[id].claimedAt == now
              && (m.tasks[id].env.status == InFlight ==>
                    m'.tasks[id].env.attempts == m.tasks[id].env.attempts +
                      [Attempt(m.tasks[id].env.attemptCount + 1, m.tasks[id].claimedAt, Some(now), LeaseExpired,
                               Some(Error("rdq.LeaseExpired", "lease expired before an outcome was reported")))])
            else m'.tasks[id] == m.tasks[id]
  {
    hide TokenOf;
    if id in KeyIds(keys) {
      var i := MR.IdIndex(keys, id);
    }
  }

  // ---------- runs ----------

  ghost predicate CompletesAt(max: Limits, r: MemRun, j: nat, id: TaskId)
    requires |r.states| == |r.acts| + 1 == |r.replies| + 1 && j < |r.acts|
  {
    var call := CallOf(max, r.states[j].jobs, r.acts[j]);
    call.Some? && call.value.Complete? && call.value.id == id && r.replies[j] == Done
  }

  /** A succeeded task ended at the clock of its last accepted completion. */
  lemma {:induction false} CompletionClock(max: Limits, r: MemRun, i: nat, id: TaskId) returns (j: nat)
    requires IsMemRun(max, r) && i < |r.states| && id in r.states[i].store.tasks
    requires r.states[i].store.tasks[id].env.status == Succeeded
    ensures j < i && CompletesAt(max, r, j, id) && forall k :: j < k < i ==> !CompletesAt(max, r, k, id)
    ensures r.states[i].store.tasks[id].terminalAt == CallOf(max, r.states[j].jobs, r.acts[j]).value.now
    decreases i
  {
    hide MemNext, MR.Apply, CallOf, Enabled, MR.Abs;
    if i > 0 {
      var a, act := r.states[i - 1], r.acts[i - 1];
      MemStepCall(max, a, act, r.replies[i - 1], r.states[i]);
      var call := CallOf(max, a.jobs, act);
      if call.Some? {
        if call.value.Enqueue? {
          SubmitsFresh(max, MR.Abs(a.store), a.jobs, act);
        }
        SucceededStep(a.store, call.value, id);
      }
      if CompletesAt(max, r, i - 1, id) {
        j := i - 1;
      } else {
        j := CompletionClock(max, r, i - 1, id);
      }
    }
  }

  /** In any run a sweep takes a succeeded task exactly when it is of the queue and its last
      completion was before the cut-off. */
  lemma RunSweep(max: Limits, r: MemRun, i: nat, id: TaskId) returns (j: nat)
    requires IsMemRun(max, r) && i < |r.acts| && r.acts[i].Other? && r.acts[i].call.PurgeSucceeded?
    requires id in r.states[i].store.tasks && r.states[i].store.tasks[id].env.status == Succeeded
    ensures j < i && CompletesAt(max, r, j, id) && forall k :: j < k < i ==> !CompletesAt(max, r, k, id)
    ensures var sweep, done := r.acts[i].call, CallOf(max, r.states[j].jobs, r.acts[j]).value;
            id !in r.states[i + 1].store.tasks <==>
            r.states[i].store.tasks[id].env.queue == sweep.queue && done.now < sweep.olderThan
  {
    hide MemNext, CallOf, Enabled, MR.Abs;
    j := CompletionClock(max, r, i, id);
    MemStepCall(max, r.states[i], r.acts[i], r.replies[i], r.states[i + 1]);
    OtherCall(max, r.states[i].jobs, r.acts[i]);
  }

  lemma OtherCall(max: Limits, jobs: map<Token, Job>, act: Act)
    requires act.Other?
    ensures CallOf(max, jobs, act) == Some(act.call)
  {
  }

  ghost predicate GrantsAt(r: MemRun, j: nat, id: TaskId)
    requires j < |r.replies|
  {
    r.replies[j].Claimed? && id in r.replies[j].grants
  }

  /** A task in flight was claimed at the clock of the poll that was last granted it, and holds
      the token granted then. */
  lemma {:induction false} ClaimClock(max: Limits, r: MemRun, i: nat, id: TaskId) returns (j: nat)
    requires IsMemRun(max, r) && i < |r.states| && id in r.states[i].store.tasks
    requires r.states[i].store.tasks[id].env.status == InFlight
    ensures j < i && GrantsAt(r, j, id) && forall k :: j < k < i ==> !GrantsAt(r, k, id)
    ensures r.acts[j].Poll? && r.states[i].store.tasks[id].claimedAt == r.acts[j].now
    ensures r.states[i].store.tasks[id].token == r.replies[j].grants[id].token
    decreases i
  {
    hide MemNext, MR.Apply, CallOf, Enabled, MR.Abs;
    if i > 0 {
      var a, act := r.states[i - 1], r.acts[i - 1];
      MemStepCall(max, a, act, r.replies[i - 1], r.states[i]);
      var call := CallOf(max, a.jobs, act);
      if call.Some? {
        if call.value.Enqueue? {
          SubmitsFresh(max, MR.Abs(a.store), a.jobs, act);
        }
        InFlightStep(a.store, call.value, id);
        if call.value.ClaimDue? {
          OnlyPollsClaim(max, MR.Abs(a.store), a.jobs, act);
        }
      } else {
        SilentReply(max, a, act, r.replies[i - 1], r.states[i]);
      }
      if GrantsAt(r, i - 1, id) {
        j := i - 1;
      } else {
        j := ClaimClock(max, r, i - 1, id);
      }
    }
  }

  lemma OnlyPollsClaim(max: Limits, s: L.Store, jobs: map<Token, Job>, act: Act)
    requires Enabled(max, s, jobs, act) && CallOf(max, jobs, act).Some? && CallOf(max, jobs, act).value.ClaimDue?
    ensures act.Poll? && CallOf(max, jobs, act).value.now == act.now
  {
  }

  lemma SilentReply(max: Limits, a: MemSys, act: Act, reply: Reply, b: MemSys)
    requires MemNext(max, a, act, reply, b) && CallOf(max, a.jobs, act).None?
    ensures reply == Done
  {
    hide MR.Abs, HistStep, JobsStep, Enabled;
  }

  /** In any run a reclaim records the lost claim: begun when that claim was granted, ended now. */
  lemma RunReclaimRecord(max: Limits, r: MemRun, i: nat, id: TaskId) returns (j: nat)
    requires IsMemRun(max, r) && i < |r.acts| && GrantsAt(r, i, id)
    requires id in r.states[i].store.tasks && r.states[i].store.tasks[id].env.status == InFlight
    ensures j < i && GrantsAt(r, j, id) && (forall k :: j < k < i ==> !GrantsAt(r, k, id)) && r.acts[i].Poll? && r.acts[j].Poll?
    ensures id in r.states[i + 1].store.tasks
    ensures var before, after := r.states[i].store.tasks[id].env, r.states[i + 1].store.tasks[id].env;
            after.attempts == before.attempts +
              [Attempt(before.attemptCount + 1, r.acts[j].now, Some(r.acts[i].now), LeaseExpired,
                       Some(Error("rdq.LeaseExpired", "lease expired before an outcome was reported")))]
  {
    hide MemNext, MR.Apply, CallOf, Enabled, MR.Abs;
    j := ClaimClock(max, r, i, id);
    var a, act := r.states[i], r.acts[i];
    MemStepCall(max, a, act, r.replies[i], r.states[i + 1]);
    var call := CallOf(max, a.jobs, act);
    if call.None? {
      SilentReply(max, a, act, r.replies[i], r.states[i + 1]);
    } else {
      if call.value.Enqueue? {
        SubmitsFresh(max, MR.Abs(a.store), a.jobs, act);
      }
      GrantedInFlight(a.store, call.value, id);
      InFlightStep(a.store, call.value, id);
      OnlyPollsClaim(max, MR.Abs(a.store), a.jobs, act);
    }
  }

  lemma GrantedInFlight(m: State, call: Call, id: TaskId)
    requires var reply := MR.Apply(m, call).1; reply.Claimed? && id in reply.grants
    ensures var m' := MR.Apply(m, call).0; call.ClaimDue? && id in m'.tasks && m'.tasks[id].env.status == InFlight
  {
    hide Taken, ClaimMany, TokenOf, Picks, PickCount, Selection, Aged;
    if call.ClaimDue? {
      var keys := Taken(m, call.queue, call.limit, call.now);
      TakenIds(m, call.queue, call.limit, call.now);
      ClaimManyPointwise(m, keys, call.lease, call.now);
      var i := MR.IdIndex(keys, id);
    }
  }
}
