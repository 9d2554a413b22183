/** Value types of the storage service-provider interface: the task envelope, its
    attempt history, selectors, and the calls and replies a backend exchanges with
    its clients.

    Times are integers (nanoseconds), strings are byte strings, and the parts of an
    envelope that no operation inspects (payload, headers, version, residual) are
    folded into the one immutable field `body`. */
module Spi {
  type TaskId = string
  type Token = string
  type Time = int

  datatype Option<+T> = None | Some(value: T)

  datatype Status = Pending | InFlight | Succeeded | Dead

  datatype Outcome = Success | RetryableFailure | PermanentFailure | LeaseExpired

  datatype Error = Error(kind: string, message: string)

  datatype Attempt = Attempt(
    no: int,
    startedAt: Time,
    finishedAt: Option<Time>,
    outcome: Outcome,
    error: Option<Error>)

  datatype Task = Task(
    queue: string,
    handlerRef: string,
    body: string,
    createdAt: Time,
    status: Status,
    attemptCount: int,
    redriveCount: int,
    nextAt: Option<Time>,
    leaseAt: Option<Time>,
    attempts: seq<Attempt>)

  // Empty strings and None leave a dimension unconstrained.
  datatype DlqFilter = DlqFilter(
    errorType: string,
    handlerRef: string,
    deadAfter: Option<Time>,
    deadBefore: Option<Time>)

  datatype Selector = Selector(ids: seq<TaskId>, filter: Option<DlqFilter>)

  /** The zero `time.Time`, midnight of 1 January of year 1. */
  const ZERO_TIME: Time := -62135596800000000000

  const LEASE_EXPIRED_TYPE := "rdq.LeaseExpired"
  const LEASE_EXPIRED_MESSAGE := "lease expired before an outcome was reported"
  const MAX_ATTEMPTS_TYPE := "rdq.MaxAttemptsExceeded"

  /** The state-changing calls of the interface. Where a backend reads its own clock
      the reading is the argument `now`, so a run may use any clock whatsoever. */
  datatype Call =
    | Enqueue(id: TaskId, task: Task)
    | ClaimDue(queue: string, limit: int, lease: int, now: Time)
    | ExtendLease(id: TaskId, token: Token, lease: int, now: Time)
    | Reschedule(id: TaskId, token: Token, attempt: Attempt, nextAt: Time)
    | Complete(id: TaskId, token: Token, attempt: Attempt, now: Time)
    | DeadLetter(id: TaskId, token: Token, attempt: Attempt, now: Time)
    | Redrive(queue: string, sel: Selector, now: Time)
    | Purge(queue: string, sel: Selector)
    | PurgeSucceeded(queue: string, olderThan: Time)

  /** One claimed task: its fencing token and the envelope handed to the worker. */
  datatype Grant = Grant(token: Token, task: Task)

  datatype Reply =
    | Done
    | IdConflict
    | StaleClaim
    | Claimed(grants: map<TaskId, Grant>)
    | Count(n: int)
    | Violation  // a relational backend refused the write: UNIQUE(task_id, attempt_no)

  /** The task shape `Submit` builds: pending, never attempted, due at a known time. */
  predicate Fresh(t: Task) {
    && t.status.Pending?
    && t.attemptCount == 0
    && t.redriveCount == 0
    && t.nextAt.Some?
    && t.leaseAt.None?
    && t.attempts == []
  }

  predicate IsDue(t: Task, now: Time) {
    match t.status
    case Pending => t.nextAt.Some? && t.nextAt.value <= now
    case InFlight => t.leaseAt.Some? && t.leaseAt.value <= now
    case _ => false
  }

  /** The error type of the last recorded attempt, "" when there is none. */
  function FinalErrorType(attempts: seq<Attempt>): string {
    if attempts == [] || attempts[|attempts| - 1].error.None? then ""
    else attempts[|attempts| - 1].error.value.kind
  }

  /** `deadAt` is the time the task was dead-lettered: inclusive lower bound, exclusive upper. */
  predicate MatchesFilter(t: Task, deadAt: Time, f: DlqFilter) {
    && (f.handlerRef != "" ==> t.handlerRef == f.handlerRef)
    && (f.errorType != "" ==> FinalErrorType(t.attempts) == f.errorType)
    && (f.deadAfter.Some? ==> f.deadAfter.value <= deadAt)
    && (f.deadBefore.Some? ==> deadAt < f.deadBefore.value)
  }

  /** `id` occurs at most once in `ids`. */
  predicate AtMostOnce(ids: seq<TaskId>, id: TaskId) {
    forall i, j :: 0 <= i < j < |ids| && ids[i] == id ==> ids[j] != id
  }

  /** A history numbered 1..n in its own order. */
  predicate InOrder(attempts: seq<Attempt>) {
    forall i :: 0 <= i < |attempts| ==> attempts[i].no == i + 1
  }

  predicate RepeatsNumber(attempts: seq<Attempt>) {
    exists i, j :: 0 <= i < j < |attempts| && attempts[i].no == attempts[j].no
  }

  function Min(a: int, b: int): int { if a <= b then a else b }
}
