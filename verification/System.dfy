/** Workers, operators and a store running together. A state holds the store, the claims
    workers are still processing, and history variables that record the past without
    influencing it. A run is any finite sequence of actions: polls by any number of
    workers, handler starts, outcome writes, crashes, lost leases, zombie writes,
    submissions, redrives, purges and sweeps, under any clock. */
module System {
  import opened Spi
  import opened Lifecycle
  import opened Engine

  /** A claim in a worker's hands; `running` once its handler has been invoked. */
  datatype Job = Job(id: TaskId, task: Task, running: bool)

  /** A claim as history: whose it was, in which incarnation of the id, after how many
      redrives, and the attempt count the claimer saw. */
  datatype ClaimInfo = ClaimInfo(id: TaskId, queue: string, birth: nat, epoch: int, count: int)

  datatype Hist = Hist(
    births: map<TaskId, nat>,       // admissions of each id so far
    claims: map<Token, ClaimInfo>,  // every claim ever made
    invoked: set<Token>,            // the claims whose handler was invoked
    claimCount: map<TaskId, nat>,   // claims made of each record now in the store
    base: map<TaskId, nat>,         // its history length at its last redrive
    admitted: nat,                  // records ever admitted
    removed: nat)                   // records ever purged

  datatype Sys = Sys(store: Store, jobs: map<Token, Job>, hist: Hist)

  datatype Act =
    | Submit(id: TaskId, task: Task)
    | Poll(queue: string, limit: int, lease: int, now: Time)
    | Start(token: Token)                   // a worker invokes the handler of a claim
    | Finish(token: Token, inputs: Inputs)  // a worker writes the outcome of a claim
    | Crash(token: Token)                   // a worker dies with its claim
    | Other(call: Call)                     // operators, heartbeats, zombies

  /** Retry budgets by queue; a worker never uses a budget below one. */
  type Limits = map<string, nat>

  function MaxOf(max: Limits, queue: string): nat {
    if queue in max && max[queue] >= 1 then max[queue] else 1
  }

  function Get<K>(m: map<K, nat>, k: K): nat { if k in m then m[k] else 0 }

  predicate Outcomes(call: Call) { call.Reschedule? || call.Complete? || call.DeadLetter? }

  /** A worker writes the outcome of a job it holds, having run the handler exactly when
      `process` would have. */
  predicate CanFinish(max: Limits, jobs: map<Token, Job>, token: Token, x: Inputs) {
    && token in jobs
    && jobs[token].running == Invokes(MaxOf(max, jobs[token].task.queue), jobs[token].task, x.route)
  }

  /** Outside the engine's own writes anything may be called, but an outcome write must
      come from the engine or bear a token that is no longer held. */
  predicate Allowed(s: Store, call: Call) {
    match call
    case Enqueue(_, _) => false
    case ClaimDue(_, _, _, _) => false
    case _ => Outcomes(call) ==> !Holds(s, call.id, call.token)
  }

  predicate Enabled(max: Limits, s: Store, jobs: map<Token, Job>, act: Act) {
    match act
    case Submit(_, task) => Fresh(task)
    case Poll(_, _, _, _) => true
    case Start(token) =>
      token in jobs && !jobs[token].running && jobs[token].task.attemptCount < MaxOf(max, jobs[token].task.queue)
    case Finish(token, x) => CanFinish(max, jobs, token, x)
    case Crash(token) => token in jobs
    case Other(call) => Allowed(s, call)
  }

  /** The storage call an action makes, if any. */
  function CallOf(max: Limits, jobs: map<Token, Job>, act: Act): Option<Call> {
    match act
    case Submit(id, task) => Some(Enqueue(id, task))
    case Poll(queue, limit, lease, now) => Some(ClaimDue(queue, limit, lease, now))
    case Start(_) => None
    case Finish(token, x) =>
      if token in jobs then
        var j := jobs[token];
        Some(Plan(MaxOf(max, j.task.queue), j.id, token, j.task, x))
      else None
    case Crash(_) => None
    case Other(call) => Some(call)
  }

  /** How the claims in workers' hands change. */
  ghost predicate JobsStep(jobs: map<Token, Job>, act: Act, reply: Reply, jobs': map<Token, Job>) {
    match act
    case Poll(_, _, _, _) =>
      && reply.Claimed?
      && jobs'.Keys == jobs.Keys + Tokens(reply.grants)
      && (forall t :: t in jobs && t !in Tokens(reply.grants) ==> jobs'[t] == jobs[t])
      && (forall id :: id in reply.grants ==>
            && reply.grants[id].token in jobs'
            && jobs'[reply.grants[id].token] == Job(id, reply.grants[id].task, false))
    case Start(token) => token in jobs && jobs' == jobs[token := jobs[token].(running := true)]
    case Finish(token, _) => jobs' == jobs - {token}
    case Crash(token) => jobs' == jobs - {token}
    case _ => jobs' == jobs
  }

  function Granted(reply: Reply): map<TaskId, Grant> {
    if reply.Claimed? then reply.grants else map[]
  }

  /** How the history variables record a step from store `s` to store `s'`. */
  ghost predicate HistStep(h: Hist, s: Store, act: Act, reply: Reply, s': Store, h': Hist) {
    && BirthsRecorded(h, s, s', h')
    && ClaimsRecorded(h, Granted(reply), h')
    && CountsRecorded(h, s, Granted(reply), s', h')
    && h'.invoked == h.invoked + (if act.Start? then {act.token} else {})
    && h'.admitted == h.admitted + |s'.tasks.Keys - s.tasks.Keys|
    && h'.removed == h.removed + |s.tasks.Keys - s'.tasks.Keys|
  }

  ghost predicate BirthsRecorded(h: Hist, s: Store, s': Store, h': Hist) {
    forall id :: Get(h'.births, id) == Get(h.births, id) + if id in s'.tasks && id !in s.tasks then 1 else 0
  }

  ghost predicate CountsRecorded(h: Hist, s: Store, granted: map<TaskId, Grant>, s': Store, h': Hist) {
    && h'.claimCount.Keys == s'.tasks.Keys
    && h'.base.Keys == s'.tasks.Keys
    && (forall id :: id in s'.tasks ==>
          && h'.claimCount[id] == (if id in s.tasks then Get(h.claimCount, id) else 0) + (if id in granted then 1 else 0)
          && h'.base[id] == if id !in s.tasks then 0
                            else if s'.tasks[id].task.redriveCount != s.tasks[id].task.redriveCount
                            then |s'.tasks[id].task.attempts|
                            else Get(h.base, id))
  }

  ghost predicate ClaimsRecorded(h: Hist, granted: map<TaskId, Grant>, h': Hist) {
    && h'.claims.Keys == h.claims.Keys + Tokens(granted)
    && (forall t :: t in h.claims && t !in Tokens(granted) ==> h'.claims[t] == h.claims[t])
    && (forall id :: id in granted ==>
          && granted[id].token in h'.claims
          && h'.claims[granted[id].token] ==
               ClaimInfo(id, granted[id].task.queue, Get(h.births, id),
                         granted[id].task.redriveCount, granted[id].task.attemptCount))
  }

  /** The store's part of a step: the call the action makes, or nothing. */
  ghost predicate StoreStep(max: Limits, s: Store, jobs: map<Token, Job>, act: Act, reply: Reply, s': Store) {
    var call := CallOf(max, jobs, act);
    if call.Some? then Step(s, call.value, reply, s') else s' == s && reply == Done
  }

  ghost predicate Next(max: Limits, a: Sys, act: Act, reply: Reply, b: Sys) {
    && Enabled(max, a.store, a.jobs, act)
    && StoreStep(max, a.store, a.jobs, act, reply, b.store)
    && JobsStep(a.jobs, act, reply, b.jobs)
    && HistStep(a.hist, a.store, act, reply, b.store, b.hist)
  }

  const EMPTY := Sys(Store(map[], {}), map[], Hist(map[], map[], {}, map[], map[], 0, 0))

  /** A run: states linked by actions and the replies they drew, from the empty system. */
  datatype Run = Run(states: seq<Sys>, acts: seq<Act>, replies: seq<Reply>)

  ghost predicate IsRun(max: Limits, r: Run) {
    && |r.states| == |r.acts| + 1 == |r.replies| + 1
    && r.states[0] == EMPTY
    && forall i :: 0 <= i < |r.acts| ==> Next(max, r.states[i], r.acts[i], r.replies[i], r.states[i + 1])
  }
}
