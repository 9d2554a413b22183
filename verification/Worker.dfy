/** One claimed task carried to its outcome against the in-memory store. */
module Worker {
  import opened Spi
  import opened Engine
  import opened MemModel
  import MemStore
  import B = Backoff
  import MR = MemRefines

  /** A claim is spent: it was live and its task, and no other, is carried to its outcome, or it
      was stale and nothing changed. Either way it is not honoured any more. */
  ghost predicate ClaimSpent(m: State, max: nat, id: TaskId, token: Token, task: Task, x: Inputs, m': State, reply: Reply) {
    && !Resolves(m', id, token)
    && if !Resolves(m, id, token) then reply == StaleClaim && m' == m
       else
         && reply == Done
         && m'.tasks.Keys == m.tasks.Keys
         && (forall other :: other in m'.tasks && other != id ==> m'.tasks[other] == m.tasks[other])
         && Carried(max, task.attemptCount, x, m.tasks[id].env, m'.tasks[id].env)
         && m'.tasks[id].env.attempts[|m.tasks[id].env.attempts|].no == |task.attempts| + 1
         && (m'.tasks[id].env.status == Succeeded || m'.tasks[id].env.status == Dead ==> m'.tasks[id].terminalAt == x.now)
  }

  /** Every run of `process` makes the one write that `Plan` names and no other, which spends the
      claim. */
  method Process(store: MemStore.Store, max: nat, id: TaskId, token: Token, task: Task, x: Inputs)
    returns (reply: Reply, invoked: bool)
    modifies store
    ensures invoked <==> task.attemptCount < max && x.route.Handle?
    ensures (store.View(), reply) == MR.Apply(old(store.View()), Plan(max, id, token, task, x))
    ensures ClaimSpent(old(store.View()), max, id, token, task, x, store.View(), reply)
  {
    hide B.Delay, ClaimSpent, MR.Apply, AfterComplete, AfterDeadLetter, AfterReschedule, BurialAttempt, GuardError;
    Outcome(store.View(), max, id, token, task, x);
    CallApplied(store.View(), Plan(max, id, token, task, x));
    invoked := false;
    if task.attemptCount >= max {
      reply := Bury(store, id, token, task, x.started, GuardError(max), x.now);
      return;
    }
    if x.route.Refuse? {
      reply := Bury(store, id, token, task, x.started, x.route.error, x.now);
      return;
    }
    invoked := true;
    var budgetNo := task.attemptCount + 1;
    var historyNo := |task.attempts| + 1;
    if x.result.Ok? {
      reply := store.Complete(id, token, Attempt(historyNo, x.started, Some(x.finished), Success, None), x.now);
      return;
    }
    var verdict := x.result.verdict;
    var a := Attempt(historyNo, x.started, Some(x.finished),
                     if verdict.Permanent? then PermanentFailure else RetryableFailure, Some(x.result.error));
    if verdict.Permanent? || budgetNo >= max {
      reply := store.DeadLetter(id, token, a, x.now);
      return;
    }
    reply := store.Reschedule(id, token, a, x.finished + B.Delay(x.ladder, budgetNo, x.draw));
  }

  /** The record an outcome write leaves. */
  function Written(r: Record, dlqSeq: nat, call: Call): Record
    requires call.Reschedule? || call.Complete? || call.DeadLetter?
  {
    match call
    case Reschedule(_, _, a, nextAt) => Rescheduled(r, a, nextAt)
    case Complete(_, _, a, now) => Completed(r, a, now)
    case DeadLetter(_, _, a, now) => Buried(r, a, dlqSeq, now)
  }

  lemma PlanIsOutcome(max: nat, id: TaskId, token: Token, task: Task, x: Inputs)
    ensures var call := Plan(max, id, token, task, x);
            (call.Reschedule? || call.Complete? || call.DeadLetter?) && call.id == id && call.token == token
  {
    hide B.Delay;
  }

  lemma WrittenCarried(r: Record, dlqSeq: nat, max: nat, id: TaskId, token: Token, task: Task, x: Inputs)
    requires var call := Plan(max, id, token, task, x); call.Reschedule? || call.Complete? || call.DeadLetter?
    ensures var r' := Written(r, dlqSeq, Plan(max, id, token, task, x));
            && Carried(max, task.attemptCount, x, r.env, r'.env)
            && r'.env.attempts[|r.env.attempts|].no == |task.attempts| + 1
            && !r'.env.status.InFlight?
            && (r'.env.status == Succeeded || r'.env.status == Dead ==> r'.terminalAt == x.now)
  {
    hide B.Delay;
    var r' := Written(r, dlqSeq, Plan(max, id, token, task, x));
    assert r'.env.attempts[..|r.env.attempts|] == r.env.attempts;
  }

  lemma CallApplied(m: State, call: Call)
    ensures match call
            case Reschedule(id, token, a, nextAt) => MR.Apply(m, call) == AfterReschedule(m, id, token, a, nextAt)
            case Complete(id, token, a, now) => MR.Apply(m, call) == AfterComplete(m, id, token, a, now)
            case DeadLetter(id, token, a, now) => MR.Apply(m, call) == AfterDeadLetter(m, id, token, a, now)
            case _ => true
  {
  }

  lemma WriteApplied(m: State, call: Call)
    requires call.Reschedule? || call.Complete? || call.DeadLetter?
    ensures !Resolves(m, call.id, call.token) ==> MR.Apply(m, call) == (m, StaleClaim)
    ensures Resolves(m, call.id, call.token) ==>
              var (m', reply) := MR.Apply(m, call);
              reply == Done && m'.tasks == m.tasks[call.id := Written(m.tasks[call.id], m.dlqSeq + 1, call)]
  {
    hide Resolves, Buried, Completed, Rescheduled;
  }

  /** The write that `Plan` names, in the fields of the record. */
  lemma Outcome(m: State, max: nat, id: TaskId, token: Token, task: Task, x: Inputs)
    ensures var (m', reply) := MR.Apply(m, Plan(max, id, token, task, x));
            ClaimSpent(m, max, id, token, task, x, m', reply)
  {
    hide Plan, Carried, Written, MR.Apply;
    PlanIsOutcome(max, id, token, task, x);
    WriteApplied(m, Plan(max, id, token, task, x));
    if Resolves(m, id, token) {
      WrittenCarried(m.tasks[id], m.dlqSeq + 1, max, id, token, task, x);
    }
  }

  /** The terminal write of a task that is not run: refused by routing, or out of attempts. */
  method Bury(store: MemStore.Store, id: TaskId, token: Token, task: Task, at: Time, e: Error, now: Time) returns (reply: Reply)
    modifies store
    ensures (store.View(), reply) == AfterDeadLetter(old(store.View()), id, token, BurialAttempt(task, at, e), now)
  {
    var a := Attempt(|task.attempts| + 1, at, Some(at), PermanentFailure, Some(e));
    reply := store.DeadLetter(id, token, a, now);
  }
}
