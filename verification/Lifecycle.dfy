/** The abstract task store: one map from id to record plus the set of every fencing
    token ever minted. `Step` says which replies and successor states the storage
    contract allows for a call; both backends are shown to stay within it. */
module Lifecycle {
  import opened Spi

  /** `token` is "" unless the task is in flight; `deadAt` is meaningful while DEAD. */
  datatype Rec = Rec(task: Task, token: Token, deadAt: Time)

  datatype Store = Store(tasks: map<TaskId, Rec>, minted: set<Token>)

  /** Backends disagree on how a LEASE_EXPIRED attempt is numbered and when it is said to
      have started, so the abstract history forgets both. */
  function Norm(a: Attempt): Attempt {
    a.(no := 0, startedAt := if a.outcome.LeaseExpired? then 0 else a.startedAt)
  }

  function NormAll(s: seq<Attempt>): (r: seq<Attempt>)
    ensures |r| == |s|
    ensures forall i :: 0 <= i < |s| ==> r[i] == Norm(s[i])
  {
    seq(|s|, i requires 0 <= i < |s| => Norm(s[i]))
  }

  function NormTask(t: Task): Task {
    t.(attempts := NormAll(t.attempts))
  }

  lemma NormKeepsErrorType(attempts: seq<Attempt>)
    ensures FinalErrorType(NormAll(attempts)) == FinalErrorType(attempts)
  {
  }

  /** The claim rule: only the current, non-empty token of an in-flight task is honoured.
      The lease deadline plays no part. */
  predicate Holds(s: Store, id: TaskId, token: Token) {
    && id in s.tasks
    && s.tasks[id].task.status.InFlight?
    && s.tasks[id].token != ""
    && s.tasks[id].token == token
  }

  function Append(t: Task, a: Attempt): Task {
    t.(attempts := t.attempts + [Norm(a)], attemptCount := t.attemptCount + 1)
  }

  function ExpiredAttempt(now: Time): Attempt {
    Attempt(0, 0, Some(now), LeaseExpired, Some(Error(LEASE_EXPIRED_TYPE, LEASE_EXPIRED_MESSAGE)))
  }

  /** Leasing a due task; an expired lease first gains its LEASE_EXPIRED attempt. */
  function Leased(r: Rec, token: Token, lease: int, now: Time): Rec {
    var t := if r.task.status.InFlight? then Append(r.task, ExpiredAttempt(now)) else r.task;
    r.(task := t.(status := InFlight, leaseAt := Some(now + lease)), token := token)
  }

  function Extended(r: Rec, lease: int, now: Time): Rec {
    r.(task := r.task.(leaseAt := Some(now + lease)))
  }

  function Rescheduled(r: Rec, a: Attempt, nextAt: Time): Rec {
    r.(task := Append(r.task, a).(status := Pending, nextAt := Some(nextAt), leaseAt := None), token := "")
  }

  function Completed(r: Rec, a: Attempt): Rec {
    r.(task := Append(r.task, a).(status := Succeeded, nextAt := None, leaseAt := None), token := "")
  }

  function Buried(r: Rec, a: Attempt, now: Time): Rec {
    r.(task := Append(r.task, a).(status := Dead, nextAt := None, leaseAt := None), token := "", deadAt := now)
  }

  function Redriven(r: Rec, redriveCount: int, now: Time): Rec {
    r.(task := r.task.(status := Pending, attemptCount := 0, redriveCount := redriveCount,
                       nextAt := Some(now), leaseAt := None),
       deadAt := ZERO_TIME)
  }

  /** The dead tasks of a queue a selector names: explicit ids win over a filter, and a
      selector with neither names nothing. */
  predicate Selects(queue: string, sel: Selector, id: TaskId, r: Rec) {
    && r.task.queue == queue
    && r.task.status.Dead?
    && if |sel.ids| > 0 then id in sel.ids
       else sel.filter.Some? && MatchesFilter(r.task, r.deadAt, sel.filter.value)
  }

  function Selection(s: Store, queue: string, sel: Selector): set<TaskId> {
    set id | id in s.tasks && Selects(queue, sel, id, s.tasks[id])
  }

  function DueSet(s: Store, queue: string, now: Time): set<TaskId> {
    set id | id in s.tasks && s.tasks[id].task.queue == queue && IsDue(s.tasks[id].task, now)
  }

  function Tokens(grants: map<TaskId, Grant>): set<Token> {
    set id | id in grants :: grants[id].token
  }

  /** The grants are due tasks of the queue, as many as the limit allows, none passed over
      for a later one, each with a token of its own that was never minted before. */
  ghost predicate FairGrants(s: Store, queue: string, limit: int, now: Time, grants: map<TaskId, Grant>) {
    && grants.Keys <= DueSet(s, queue, now)
    && |grants| == Min(limit, |DueSet(s, queue, now)|)
    && (forall id, other ::
          id in grants && other in DueSet(s, queue, now) && other !in grants
          && s.tasks[id].task.nextAt.Some? && s.tasks[other].task.nextAt.Some?
          ==> s.tasks[id].task.nextAt.value <= s.tasks[other].task.nextAt.value)
    && (forall id :: id in grants ==> grants[id].token != "" && grants[id].token !in s.minted)
    && (forall id, other :: id in grants && other in grants && grants[id].token == grants[other].token ==> id == other)
  }

  ghost predicate ClaimStep(s: Store, queue: string, limit: int, lease: int, now: Time, reply: Reply, s': Store) {
    && reply.Claimed?
    && if limit <= 0 then reply.grants == map[] && s' == s
       else
         && FairGrants(s, queue, limit, now, reply.grants)
         && s'.minted == s.minted + Tokens(reply.grants)
         && s'.tasks.Keys == s.tasks.Keys
         && (forall id :: id in s.tasks ==>
               s'.tasks[id] == if id in reply.grants then Leased(s.tasks[id], reply.grants[id].token, lease, now)
                               else s.tasks[id])
         && (forall id :: id in reply.grants ==> reply.grants[id].task == s'.tasks[id].task)
  }

  ghost predicate RedriveStep(s: Store, queue: string, sel: Selector, now: Time, reply: Reply, s': Store) {
    var chosen := Selection(s, queue, sel);
    && reply.Count?
    && ((forall id :: id in chosen ==> AtMostOnce(sel.ids, id)) ==> reply.n == |chosen|)
    && s'.minted == s.minted
    && s'.tasks.Keys == s.tasks.Keys
    && (forall id :: id in s.tasks && id !in chosen ==> s'.tasks[id] == s.tasks[id])
    && (forall id :: id in chosen ==>
          && s'.tasks[id] == Redriven(s.tasks[id], s'.tasks[id].task.redriveCount, now)
          && s'.tasks[id].task.redriveCount > s.tasks[id].task.redriveCount
          && (AtMostOnce(sel.ids, id) ==> s'.tasks[id].task.redriveCount == s.tasks[id].task.redriveCount + 1))
  }

  ghost predicate SweepStep(s: Store, queue: string, reply: Reply, s': Store) {
    && reply.Count?
    && s'.minted == s.minted
    && s'.tasks.Keys <= s.tasks.Keys
    && reply.n == |s.tasks| - |s'.tasks|
    && (forall id :: id in s'.tasks ==> s'.tasks[id] == s.tasks[id])
    && (forall id :: id in s.tasks && id !in s'.tasks ==>
          s.tasks[id].task.queue == queue && s.tasks[id].task.status.Succeeded?)
  }

  /** The calls that must present a claim token. */
  predicate Fenced(call: Call) {
    call.ExtendLease? || call.Reschedule? || call.Complete? || call.DeadLetter?
  }

  /** What a fenced call makes of the record whose claim it holds. */
  function Written(r: Rec, call: Call): Rec
    requires Fenced(call)
  {
    match call
    case ExtendLease(_, _, lease, now) => Extended(r, lease, now)
    case Reschedule(_, _, a, nextAt) => Rescheduled(r, a, nextAt)
    case Complete(_, _, a, _) => Completed(r, a)
    case DeadLetter(_, _, a, now) => Buried(r, a, now)
  }

  /** A fenced write is refused without effect unless the token is held. */
  predicate FencedStep(s: Store, call: Call, reply: Reply, s': Store)
    requires Fenced(call)
  {
    if Holds(s, call.id, call.token) then
      reply == Done && s' == s.(tasks := s.tasks[call.id := Written(s.tasks[call.id], call)])
    else
      reply == StaleClaim && s' == s
  }

  predicate EnqueueStep(s: Store, id: TaskId, task: Task, reply: Reply, s': Store) {
    if id in s.tasks then
      s' == s && reply == if s.tasks[id].task.queue != task.queue then IdConflict else Done
    else
      reply == Done && s' == s.(tasks := s.tasks[id := Rec(NormTask(task), "", ZERO_TIME)])
  }

  ghost predicate PurgeStep(s: Store, queue: string, sel: Selector, reply: Reply, s': Store) {
    var chosen := Selection(s, queue, sel);
    && s' == s.(tasks := s.tasks - chosen)
    && reply.Count?
    && ((forall id :: id in chosen ==> AtMostOnce(sel.ids, id)) ==> reply.n == |chosen|)
  }

  /** What the storage contract allows. */
  ghost predicate Step(s: Store, call: Call, reply: Reply, s': Store) {
    match call
    case Enqueue(id, task) => EnqueueStep(s, id, task, reply, s')
    case ClaimDue(queue, limit, lease, now) => ClaimStep(s, queue, limit, lease, now, reply, s')
    case Redrive(queue, sel, now) => RedriveStep(s, queue, sel, now, reply, s')
    case Purge(queue, sel) => PurgeStep(s, queue, sel, reply, s')
    case PurgeSucceeded(queue, olderThan) => SweepStep(s, queue, reply, s')
    case _ => FencedStep(s, call, reply, s')
  }
}
