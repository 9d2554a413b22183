/** The worker's handling of one claimed task: from the envelope it was handed and what
    routing and the handler reported, the single outcome write it makes. */
module Engine {
  import opened Spi
  import B = Backoff
  import Decimal

  datatype Verdict = Retryable | Permanent

  /** Routing either finds a handler to run or refuses the task (unroutable, version). */
  datatype Route = Handle | Refuse(error: Error)

  datatype HandlerResult = Ok | Failed(error: Error, verdict: Verdict)

  /** Everything `process` learns from outside: routing, the handler, its own clock, the
      queue's backoff ladder and the random draw for it, and the store's clock at the time of
      the write. */
  datatype Inputs = Inputs(
    route: Route,
    result: HandlerResult,
    started: Time,
    finished: Time,
    ladder: B.Ladder,
    draw: real,
    now: Time)

  function OutcomeOf(v: Verdict): Outcome {
    if v.Permanent? then PermanentFailure else RetryableFailure
  }

  /** The handler runs only while attempts remain and the task is routable. */
  predicate Invokes(max: int, task: Task, route: Route) {
    task.attemptCount < max && route.Handle?
  }

  function GuardError(max: nat): Error {
    Error(MAX_ATTEMPTS_TYPE, "max_attempts (" + Decimal.Format(max) + ") reached without a successful attempt")
  }

  /** The attempt is numbered from the history; the retry budget is counted separately. */
  function HistoryNo(task: Task): int { |task.attempts| + 1 }

  function BurialAttempt(task: Task, at: Time, e: Error): Attempt {
    Attempt(HistoryNo(task), at, Some(at), PermanentFailure, Some(e))
  }

  /** The outcome write for a claimed task. */
  function Plan(max: nat, id: TaskId, token: Token, task: Task, x: Inputs): Call {
    if task.attemptCount >= max then
      DeadLetter(id, token, BurialAttempt(task, x.started, GuardError(max)), x.now)
    else if x.route.Refuse? then
      DeadLetter(id, token, BurialAttempt(task, x.started, x.route.error), x.now)
    else
      var budgetNo := task.attemptCount + 1;
      match x.result
      case Ok =>
        Complete(id, token, Attempt(HistoryNo(task), x.started, Some(x.finished), Success, None), x.now)
      case Failed(e, v) =>
        var a := Attempt(HistoryNo(task), x.started, Some(x.finished), OutcomeOf(v), Some(e));
        if v.Permanent? || budgetNo >= max then DeadLetter(id, token, a, x.now)
        else Reschedule(id, token, a, x.finished + B.Delay(x.ladder, budgetNo, x.draw))
  }

  // ---------- what becomes of a task ----------

  /** The fields that never change. */
  predicate SameIdentity(t: Task, t': Task) {
    t'.queue == t.queue && t'.handlerRef == t.handlerRef && t'.body == t.body && t'.createdAt == t.createdAt
  }

  /** A task carried to its outcome, as the queue promises it: one more attempt on an unchanged
      history, and a state that follows from the budget already spent, the route and the
      handler's answer. */
  ghost predicate Carried(max: nat, spent: int, x: Inputs, before: Task, after: Task) {
    && SameIdentity(before, after)
    && after.redriveCount == before.redriveCount && after.attemptCount == before.attemptCount + 1 && after.leaseAt == None
    && |after.attempts| == |before.attempts| + 1 && after.attempts[..|before.attempts|] == before.attempts
    && var last := after.attempts[|before.attempts|];
       && last.startedAt == x.started
       && if spent >= max then
            && after.status == Dead && after.nextAt == None
            && last.finishedAt == Some(x.started) && last.outcome == PermanentFailure
            && last.error == Some(Error("rdq.MaxAttemptsExceeded",
                                        "max_attempts (" + Decimal.Format(max) + ") reached without a successful attempt"))
          else if x.route.Refuse? then
            && after.status == Dead && after.nextAt == None
            && last.finishedAt == Some(x.started) && last.outcome == PermanentFailure && last.error == Some(x.route.error)
          else if x.result.Ok? then
            && after.status == Succeeded && after.nextAt == None
            && last.finishedAt == Some(x.finished) && last.outcome == Success && last.error == None
          else
            && last.finishedAt == Some(x.finished) && last.error == Some(x.result.error)
            && last.outcome == (if x.result.verdict.Permanent? then PermanentFailure else RetryableFailure)
            && if x.result.verdict.Retryable? && spent + 1 < max then
                 after.status == Pending && after.nextAt == Some(x.finished + B.Delay(x.ladder, spent + 1, x.draw))
               else after.status == Dead && after.nextAt == None
  }

  /** A retry waits: it falls due after the handler finished, within the jitter band of the rung
      for this retry. */
  lemma RetryWaits(max: nat, spent: int, x: Inputs, before: Task, after: Task)
    requires Carried(max, spent, x, before, after) && after.status == Pending
    requires B.Admitted(x.ladder) && 0.0 <= x.draw < 1.0
    ensures var wait := after.nextAt.value - x.finished;
            var rung := B.BaseDelay(x.ladder, spent + 1) as real;
            && 0 <= wait
            && rung * (1.0 - x.ladder.jitter) - 1.0 < wait as real <= rung * (1.0 + x.ladder.jitter)
  {
    hide B.Delay, B.BaseDelay;
    B.DelayRange(x.ladder, spent + 1, x.draw);
  }
}
