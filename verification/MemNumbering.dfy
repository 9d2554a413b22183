/** Attempt numbers in the in-memory store. The record of an expired lease is numbered from the
    retry budget, which a redrive resets, and not from the history, which it keeps. */
module MemNumbering {
  import opened Spi
  import opened Ordering
  import opened System
  import opened Backends
  import opened MemModel
  import L = Lifecycle
  import I = Invariant
  import G = Guarantees
  import MR = MemRefines

  /** How the attempt at position k is numbered: by its position, unless it records an expired
      lease; those may fall behind. */
  predicate NumberFits(a: Attempt, k: nat) {
    if a.outcome.LeaseExpired? then 1 <= a.no <= k + 1 else a.no == k + 1
  }

  /** The law every reachable record obeys. */
  predicate NumberLaw(t: Task) {
    && 0 <= t.attemptCount <= |t.attempts|
    && t.redriveCount >= 0
    && (t.redriveCount == 0 ==> t.attemptCount == |t.attempts| && InOrder(t.attempts))
    && (t.redriveCount > 0 ==> t.attemptCount < |t.attempts|)
    && (t.status.Dead? ==> t.attempts != [])
    && forall k :: 0 <= k < |t.attempts| ==> NumberFits(t.attempts[k], k)
  }

  // ---------- one record ----------

  lemma {:induction false} FirstOff(attempts: seq<Attempt>, n: nat) returns (k: nat)
    requires n < |attempts| && attempts[n].no != n + 1
    ensures k < |attempts| && attempts[k].no != k + 1 && InOrder(attempts[..k])
    decreases n
  {
    if InOrder(attempts[..n]) {
      k := n;
    } else {
      var i :| 0 <= i < n && attempts[..n][i].no != i + 1;
      k := FirstOff(attempts, i);
    }
  }

  /** Under the law a history is numbered 1..n exactly when no number occurs twice. */
  lemma NumberedIffUnique(t: Task)
    requires NumberLaw(t)
    ensures InOrder(t.attempts) <==> !RepeatsNumber(t.attempts)
  {
    if !InOrder(t.attempts) {
      var n :| 0 <= n < |t.attempts| && t.attempts[n].no != n + 1;
      var k := FirstOff(t.attempts, n);
      var p := t.attempts[k].no - 1;
      assert NumberFits(t.attempts[k], k);
      assert t.attempts[..k][p].no == p + 1;
      assert t.attempts[p].no == t.attempts[k].no;
    }
  }

  lemma Reclaimed(r: Record, seqNo: nat, lease: int, now: Time)
    requires r.env.status.InFlight?
    ensures var after := Claim(r, seqNo, lease, now).env.attempts;
            && |after| == |r.env.attempts| + 1
            && (forall i :: 0 <= i < |r.env.attempts| ==> after[i] == r.env.attempts[i])
            && after[|r.env.attempts|] == LeaseExpiredAttempt(r, now)
  {
  }

  /** A reclaim keeps the numbering exactly when the budget spent is the whole history. */
  lemma ReclaimNumbering(r: Record, seqNo: nat, lease: int, now: Time)
    requires r.env.status.InFlight?
    ensures InOrder(Claim(r, seqNo, lease, now).env.attempts) <==>
            InOrder(r.env.attempts) && r.env.attemptCount == |r.env.attempts|
  {
    hide Claim;
    Reclaimed(r, seqNo, lease, now);
    var before, after := r.env.attempts, Claim(r, seqNo, lease, now).env.attempts;
    if InOrder(after) {
      assert after[|before|].no == |before| + 1;
      assert forall i :: 0 <= i < |before| ==> before[i].no == after[i].no;
    }
  }

  /** And a number then occurs twice exactly when the task was ever redriven. */
  lemma ReclaimRepeats(r: Record, seqNo: nat, lease: int, now: Time)
    requires r.env.status.InFlight? && NumberLaw(r.env)
    ensures RepeatsNumber(Claim(r, seqNo, lease, now).env.attempts) <==>
            r.env.redriveCount > 0
  {
    hide Claim, InOrder, RepeatsNumber;
    ReclaimNumbering(r, seqNo, lease, now);
    ClaimKeepsLaw(r, seqNo, lease, now);
    NumberedIffUnique(Claim(r, seqNo, lease, now).env);
  }

  lemma ClaimKeepsLaw(r: Record, seqNo: nat, lease: int, now: Time)
    requires NumberLaw(r.env)
    ensures NumberLaw(Claim(r, seqNo, lease, now).env)
  {
    if r.env.status.InFlight? {
      Reclaimed(r, seqNo, lease, now);
    }
  }

  lemma OutcomeKeepsLaw(t: Task, a: Attempt)
    requires NumberLaw(t) && a.no == |t.attempts| + 1 && !a.outcome.LeaseExpired?
    ensures NumberLaw(AppendAttempt(t, a)) && AppendAttempt(t, a).attempts != []
  {
    var t' := AppendAttempt(t, a);
    forall k | 0 <= k < |t'.attempts| ensures NumberFits(t'.attempts[k], k) {
      assert k < |t.attempts| ==> t'.attempts[k] == t.attempts[k];
    }
  }

  lemma RedriveKeepsLaw(r: Record, times: nat, now: Time)
    requires NumberLaw(r.env) && (times > 0 ==> r.env.status.Dead?)
    ensures NumberLaw(Redriven(r, times, now).env)
  {
  }

  // ---------- runs ----------

  ghost predicate LawfulStore(m: State) { forall id :: id in m.tasks ==> NumberLaw(m.tasks[id].env) }

  /** Submissions are fresh; outcomes of honoured claims are numbered past the history. */
  predicate WellNumbered(m: State, call: Call) {
    && (call.Enqueue? ==> Fresh(call.task))
    && (Outcomes(call) && Resolves(m, call.id, call.token) ==>
          call.attempt.no == |m.tasks[call.id].env.attempts| + 1 && !call.attempt.outcome.LeaseExpired?)
  }

  lemma CallKeepsLaw(m: State, call: Call)
    requires LawfulStore(m) && WellNumbered(m, call)
    ensures LawfulStore(MR.Apply(m, call).0)
  {
    hide NumberLaw, Taken, Picks, Selection, PickCount, MR.Grants, Aged, ClaimMany, Claim, Redriven, AppendAttempt;
    var m' := MR.Apply(m, call).0;
    match call
    case Enqueue(id, task) => FreshLawful(task);
    case ClaimDue(queue, limit, lease, now) =>
      TakenIds(m, queue, limit, now);
      ClaimManyPointwise(m, Taken(m, queue, limit, now), lease, now);
      ClaimsKeepLaw(m, Taken(m, queue, limit, now), lease, now, m');
    case Redrive(queue, sel, now) =>
      forall id | id in m'.tasks ensures NumberLaw(m'.tasks[id].env) {
        PickedAreDead(m, queue, sel, id);
        RedriveKeepsLaw(m.tasks[id], Picks(m, queue, sel, id), now);
      }
    case ExtendLease(id, token, _, _) => WriteKeepsLaw(m, call);
    case Reschedule(id, token, _, _) => WriteKeepsLaw(m, call);
    case Complete(id, token, _, _) => WriteKeepsLaw(m, call);
    case DeadLetter(id, token, _, _) => WriteKeepsLaw(m, call);
    case _ =>
  }

  lemma PickedAreDead(m: State, queue: string, sel: Selector, id: TaskId)
    ensures Picks(m, queue, sel, id) > 0 ==> id in m.tasks && m.tasks[id].env.status.Dead?
  {
  }

  lemma FreshLawful(t: Task)
    requires Fresh(t)
    ensures NumberLaw(t)
  {
  }

  lemma WriteKeepsLaw(m: State, call: Call)
    requires LawfulStore(m) && WellNumbered(m, call) && L.Fenced(call)
    ensures LawfulStore(MR.Apply(m, call).0)
  {
    hide NumberLaw, AppendAttempt;
    if Resolves(m, call.id, call.token) {
      var t := m.tasks[call.id].env;
      if Outcomes(call) {
        OutcomeKeepsLaw(t, call.attempt);
        SameNumbers(AppendAttempt(t, call.attempt), MR.Apply(m, call).0.tasks[call.id].env);
      } else {
        SameNumbers(t, MR.Apply(m, call).0.tasks[call.id].env);
      }
    }
  }

  lemma SameNumbers(t: Task, t': Task)
    requires NumberLaw(t) && t'.attempts == t.attempts && t'.attemptCount == t.attemptCount && t'.redriveCount == t.redriveCount
    requires t'.status.Dead? ==> t.status.Dead? || t.attempts != []
    ensures NumberLaw(t')
  {
  }

  lemma ClaimsKeepLaw(m: State, keys: seq<Key>, lease: int, now: Time, m': State)
    requires LawfulStore(m) && (forall k :: k in keys ==> k.id in m.tasks) && ClaimedAre(m, keys, lease, now, m')
    ensures LawfulStore(m')
  {
    hide NumberLaw, Claim;
    forall id | id in m'.tasks ensures NumberLaw(m'.tasks[id].env) {
      if id in KeyIds(keys) {
        var i := MR.IdIndex(keys, id);
        ClaimKeepsLaw(m.tasks[id], m.claimSeq + i + 1, lease, now);
      }
    }
  }

  /** The engine's calls are well numbered: an honoured claim was handed the stored history. */
  lemma EngineWellNumbered(max: Limits, a: MemSys, act: Act, call: Call)
    requires I.GoodJobs(MR.Abs(a.store), a.jobs, a.hist)
    requires Enabled(max, MR.Abs(a.store), a.jobs, act) && CallOf(max, a.jobs, act) == Some(call)
    ensures WellNumbered(a.store, call)
  {
    hide MR.Abs;
    if Outcomes(call) {
      HoldsAbs(a.store, call.id, call.token);
      if act.Finish? {
        assert I.GoodJob(MR.Abs(a.store), a.hist, act.token, a.jobs[act.token]);
      }
    }
  }

  lemma HoldsAbs(m: State, id: TaskId, token: Token)
    ensures Resolves(m, id, token) <==> L.Holds(MR.Abs(m), id, token)
    ensures id in m.tasks ==> id in MR.Abs(m).tasks && |MR.Abs(m).tasks[id].task.attempts| == |m.tasks[id].env.attempts|
  {
  }

  lemma {:induction false} RunLawful(max: Limits, r: MemRun, i: nat)
    requires IsMemRun(max, r) && i < |r.states|
    ensures LawfulStore(r.states[i].store)
    decreases i
  {
    hide MemNext, MR.Apply, CallOf, WellNumbered, MR.Abs, I.Inv;
    if i > 0 {
      RunLawful(max, r, i - 1);
      var a, act := r.states[i - 1], r.acts[i - 1];
      JobsAreGood(max, r, i - 1);
      MemStepCall(max, a, act, r.replies[i - 1], r.states[i]);
      var call := CallOf(max, a.jobs, act);
      if call.Some? {
        EngineWellNumbered(max, a, act, call.value);
        CallKeepsLaw(a.store, call.value);
      }
    }
  }

  lemma JobsAreGood(max: Limits, r: MemRun, i: nat)
    requires IsMemRun(max, r) && i < |r.states|
    ensures I.GoodJobs(MR.Abs(r.states[i].store), r.states[i].jobs, r.states[i].hist)
  {
    hide IsMemRun, IsRun, MR.Abs, I.GoodJobs, I.GoodRecords, I.GoodClaims, I.GoodTokens, I.GoodInvocations;
    MemRunsRefine(max, r);
    G.EveryStateGood(max, AbsMemRun(r), i);
  }

  /** In every state of every run: an attempt that records no expired lease is numbered by its
      position, one that does never ahead of it; a task never redriven is numbered 1..n; and a
      number occurs twice exactly when the history is not numbered 1..n. */
  lemma RunNumbering(max: Limits, r: MemRun, i: nat, id: TaskId)
    requires IsMemRun(max, r) && i < |r.states| && id in r.states[i].store.tasks
    ensures var t := r.states[i].store.tasks[id].env;
            && (forall k :: 0 <= k < |t.attempts| ==> NumberFits(t.attempts[k], k))
            && (t.redriveCount == 0 ==> InOrder(t.attempts))
            && (InOrder(t.attempts) <==> !RepeatsNumber(t.attempts))
  {
    hide IsMemRun, InOrder, RepeatsNumber, NumberFits;
    RunLawful(max, r, i);
    NumberedIffUnique(r.states[i].store.tasks[id].env);
  }

  /** In every state of every run: once reclaimed, a task has a number twice exactly when it was
      ever redriven. */
  lemma RunReclaim(max: Limits, r: MemRun, i: nat, id: TaskId, seqNo: nat, lease: int, now: Time)
    requires IsMemRun(max, r) && i < |r.states| && id in r.states[i].store.tasks
    requires r.states[i].store.tasks[id].env.status.InFlight?
    ensures var rec := r.states[i].store.tasks[id];
            RepeatsNumber(Claim(rec, seqNo, lease, now).env.attempts) <==>
            rec.env.redriveCount > 0
  {
    hide IsMemRun, NumberLaw, RepeatsNumber, Claim;
    RunLawful(max, r, i);
    ReclaimRepeats(r.states[i].store.tasks[id], seqNo, lease, now);
  }
}
