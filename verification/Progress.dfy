/** No action that is enabled is ever blocked: on either backend the system has a next state, so
    the runs that Guarantees speaks about exist and can always go on. */
module Progress {
  import opened Spi
  import opened Ordering
  import opened System
  import opened Backends
  import L = Lifecycle
  import MM = MemModel
  import MR = MemRefines
  import PM = PgModel
  import PR = PgRefines
  import PS = PgStore

  ghost predicate OwnTokens(grants: map<TaskId, Grant>) {
    forall id, other :: id in grants && other in grants && grants[id].token == grants[other].token ==> id == other
  }

  /** The task a token was granted for. */
  ghost function Owner(grants: map<TaskId, Grant>, t: Token): (id: TaskId)
    requires t in L.Tokens(grants)
    ensures id in grants && grants[id].token == t
  {
    var id :| id in grants && grants[id].token == t;
    id
  }

  ghost function JobsAfter(jobs: map<Token, Job>, act: Act, grants: map<TaskId, Grant>): map<Token, Job> {
    match act
    case Poll(_, _, _, _) =>
      map t | t in jobs.Keys + L.Tokens(grants) ::
        if t in L.Tokens(grants) then Job(Owner(grants, t), grants[Owner(grants, t)].task, false) else jobs[t]
    case Start(token) => if token in jobs then jobs[token := jobs[token].(running := true)] else jobs
    case Finish(token, _) => jobs - {token}
    case Crash(token) => jobs - {token}
    case _ => jobs
  }

  lemma JobsCanStep(jobs: map<Token, Job>, act: Act, reply: Reply)
    requires act.Poll? ==> reply.Claimed? && OwnTokens(reply.grants)
    requires act.Start? ==> act.token in jobs
    ensures JobsStep(jobs, act, reply, JobsAfter(jobs, act, Granted(reply)))
  {
    if act.Poll? {
      forall id | id in reply.grants ensures reply.grants[id].token in L.Tokens(reply.grants) { }
    }
  }

  ghost function BirthsAfter(h: Hist, s: L.Store, s': L.Store): map<TaskId, nat> {
    map id | id in h.births.Keys + s'.tasks.Keys ::
      Get(h.births, id) + if id in s'.tasks && id !in s.tasks then 1 else 0
  }

  ghost function ClaimsAfter(h: Hist, grants: map<TaskId, Grant>): map<Token, ClaimInfo> {
    map t | t in h.claims.Keys + L.Tokens(grants) ::
      if t in L.Tokens(grants) then
        var id := Owner(grants, t);
        ClaimInfo(id, grants[id].task.queue, Get(h.births, id), grants[id].task.redriveCount, grants[id].task.attemptCount)
      else h.claims[t]
  }

  ghost function CountAfter(h: Hist, s: L.Store, grants: map<TaskId, Grant>, s': L.Store): map<TaskId, nat> {
    map id | id in s'.tasks ::
      (if id in s.tasks then Get(h.claimCount, id) else 0) + (if id in grants then 1 else 0)
  }

  ghost function BaseAfter(h: Hist, s: L.Store, s': L.Store): map<TaskId, nat> {
    map id | id in s'.tasks ::
      if id !in s.tasks then 0
      else if s'.tasks[id].task.redriveCount != s.tasks[id].task.redriveCount then |s'.tasks[id].task.attempts|
      else Get(h.base, id)
  }

  ghost function HistAfter(h: Hist, s: L.Store, act: Act, grants: map<TaskId, Grant>, s': L.Store): Hist {
    Hist(BirthsAfter(h, s, s'), ClaimsAfter(h, grants), h.invoked + (if act.Start? then {act.token} else {}),
         CountAfter(h, s, grants, s'), BaseAfter(h, s, s'),
         h.admitted + |s'.tasks.Keys - s.tasks.Keys|, h.removed + |s.tasks.Keys - s'.tasks.Keys|)
  }

  lemma HistoryCanStep(h: Hist, s: L.Store, act: Act, reply: Reply, s': L.Store)
    requires OwnTokens(Granted(reply))
    ensures HistStep(h, s, act, reply, s', HistAfter(h, s, act, Granted(reply), s'))
  {
    hide BirthsRecorded, ClaimsRecorded, CountsRecorded, BirthsAfter, ClaimsAfter, CountAfter, BaseAfter, OwnTokens;
    var h' := HistAfter(h, s, act, Granted(reply), s');
    BirthsCan(h, s, s', h');
    ClaimsCan(h, Granted(reply), h');
    CountsCan(h, s, Granted(reply), s', h');
  }

  lemma BirthsCan(h: Hist, s: L.Store, s': L.Store, h': Hist)
    requires h'.births == BirthsAfter(h, s, s')
    ensures BirthsRecorded(h, s, s', h')
  {
  }

  lemma ClaimsCan(h: Hist, grants: map<TaskId, Grant>, h': Hist)
    requires h'.claims == ClaimsAfter(h, grants) && OwnTokens(grants)
    ensures ClaimsRecorded(h, grants, h')
  {
    forall id | id in grants ensures grants[id].token in L.Tokens(grants) { }
  }

  lemma CountsCan(h: Hist, s: L.Store, grants: map<TaskId, Grant>, s': L.Store, h': Hist)
    requires h'.claimCount == CountAfter(h, s, grants, s') && h'.base == BaseAfter(h, s, s')
    ensures CountsRecorded(h, s, grants, s', h')
  {
  }

  lemma RepliesOwnTokens(m: MM.State, call: Call)
    ensures OwnTokens(Granted(MR.Apply(m, call).1))
    ensures call.ClaimDue? ==> MR.Apply(m, call).1.Claimed?
  {
    hide MR.Apply, MR.Abs, L.RedriveStep, L.PurgeStep, L.SweepStep, L.EnqueueStep, L.FencedStep, L.DueSet, L.Leased;
    MR.MemStoreRefines(m, call);
    if !call.ClaimDue? {
      OnlyClaimsGrant(m, call);
    }
  }

  lemma OnlyClaimsGrant(m: MM.State, call: Call)
    requires !call.ClaimDue?
    ensures !MR.Apply(m, call).1.Claimed?
  {
  }

  /** Every enabled action has a next state. */
  lemma MemNeverStuck(max: Limits, a: MemSys, act: Act) returns (reply: Reply, b: MemSys)
    requires Enabled(max, MR.Abs(a.store), a.jobs, act)
    ensures MemNext(max, a, act, reply, b)
  {
    hide MR.Apply, MR.Abs, JobsStep, HistStep, OwnTokens, JobsAfter, HistAfter;
    var call := CallOf(max, a.jobs, act);
    var m' := a.store;
    reply := Done;
    if call.Some? {
      m', reply := MR.Apply(a.store, call.value).0, MR.Apply(a.store, call.value).1;
      RepliesOwnTokens(a.store, call.value);
    } else {
      NoGrants();
    }
    JobsCanStep(a.jobs, act, reply);
    HistoryCanStep(a.hist, MR.Abs(a.store), act, reply, MR.Abs(m'));
    b := MemSys(m', JobsAfter(a.jobs, act, Granted(reply)),
                HistAfter(a.hist, MR.Abs(a.store), act, Granted(reply), MR.Abs(m')));
  }

  lemma NoGrants()
    ensures OwnTokens(map[])
  {
  }

  /** So every run can be extended by any action enabled at its end. */
  lemma RunsGoOn(max: Limits, r: MemRun, act: Act) returns (r': MemRun)
    requires IsMemRun(max, r) && Enabled(max, MR.Abs(r.states[|r.acts|].store), r.states[|r.acts|].jobs, act)
    ensures IsMemRun(max, r') && r'.acts == r.acts + [act] && r'.states[..|r.states|] == r.states
  {
    hide MemNext, Enabled;
    var reply, b := MemNeverStuck(max, r.states[|r.acts|], act);
    r' := MemRun(r.states + [b], r.acts + [act], r.replies + [reply]);
    forall i | 0 <= i < |r'.acts| ensures MemNext(max, r'.states[i], r'.acts[i], r'.replies[i], r'.states[i + 1]) {
      if i < |r.acts| {
        assert MemNext(max, r.states[i], r.acts[i], r.replies[i], r.states[i + 1]);
      }
    }
  }

  // ---------- the relational store ----------

  lemma {:induction false} LongerThanAll(issued: set<Token>) returns (n: nat)
    ensures forall t :: t in issued ==> |t| < n
    decreases |issued|
  {
    if issued == {} {
      n := 0;
    } else {
      var t :| t in issued;
      var m := LongerThanAll(issued - {t});
      n := if |t| < m then m else |t| + 1;
    }
  }

  /** There are always new tokens to draw. */
  lemma FreshTokensExist(issued: set<Token>, k: nat) returns (tokens: seq<Token>)
    ensures |tokens| == k && PS.FreshSupply(issued, tokens)
  {
    var n := LongerThanAll(issued);
    tokens := seq(k, i requires 0 <= i < k => seq(n + i + 1, _ => 'x'));
    forall i, j | 0 <= i < j < k ensures tokens[i] != tokens[j] { assert |tokens[i]| < |tokens[j]|; }
  }

  /** And always a way to pick the first due rows. */
  lemma PickExists(db: PM.Db, queue: string, limit: nat, now: Time) returns (picked: seq<TaskId>)
    ensures PS.IsPick(db, queue, limit, now, picked)
  {
    hide PM.Due, PM.NotAfter;
    var due := PM.DueIds(db, queue, now);
    var rest := due;
    picked := [];
    while |picked| < limit && rest != {}
      invariant rest <= due && |picked| <= limit && |picked| + |rest| == |due|
      invariant Distinct(picked)
      invariant forall id :: id in due <==> id in rest || id in picked
      invariant forall id :: id in picked ==> id !in rest
      invariant forall id, other :: id in picked && other in rest ==> PM.NotAfter(db.task[id], db.task[other])
      decreases rest
    {
      PS.HasFirst(db.task, rest);
      var id :| PS.First(db.task, rest, id);
      rest := rest - {id};
      picked := picked + [id];
    }
  }

  ghost function ClaimedDb(db: PM.Db, lease: int, now: Time, granted: map<TaskId, Token>): PM.Db {
    PM.Db(
      map id | id in db.task :: if id in granted then PM.LeasedRow(db.task[id], granted[id], lease, now) else db.task[id],
      db.dlq,
      map id | id in db.attempt.Keys + (set id | id in granted && PM.Reclaims(db, granted, id)) ::
        if PM.Reclaims(db, granted, id) then PM.WithExpiry(PM.RowsOf(db.attempt, id), db.task[id], now) else db.attempt[id],
      db.issued + granted.Values)
  }

  lemma ClaimCan(db: PM.Db, queue: string, limit: int, lease: int, now: Time)
    returns (granted: map<TaskId, Token>, db': PM.Db)
    ensures PM.ClaimStep(db, queue, limit, lease, now, granted, db')
    ensures OwnTokens(PR.GrantsOf(db', granted))
  {
    hide PM.ClaimStep, PS.IsPick, PS.FreshSupply, PM.AllowedClaims, ClaimedDb, PR.GrantsOf, OwnTokens, PS.TokensOf;
    if limit <= 0 {
      granted, db' := map[], db;
      PS.NothingClaimed(db, queue, limit, lease, now);
      OwnGrants(db, db', granted);
    } else {
      var picked := PickExists(db, queue, limit, now);
      var tokens := FreshTokensExist(db.issued, limit);
      PS.PickFacts(db, queue, limit, now, picked);
      PS.PickAllowed(db, queue, limit, now, picked, tokens);
      granted := PS.TokensOf(picked, tokens);
      db' := ClaimedDb(db, lease, now, granted);
      ClaimedIsStep(db, queue, limit, lease, now, granted);
      AllowedAreFresh(db, queue, limit, now, granted);
      OwnGrants(db, db', granted);
    }
  }

  lemma ClaimedIsStep(db: PM.Db, queue: string, limit: int, lease: int, now: Time, granted: map<TaskId, Token>)
    requires limit > 0 && PM.AllowedClaims(db, queue, limit, now, granted)
    ensures PM.ClaimStep(db, queue, limit, lease, now, granted, ClaimedDb(db, lease, now, granted))
  {
    hide PM.AllowedClaims, PM.LeasedRow, PM.WithExpiry, PM.RowsOf;
  }

  lemma AllowedAreFresh(db: PM.Db, queue: string, limit: int, now: Time, granted: map<TaskId, Token>)
    requires PM.AllowedClaims(db, queue, limit, now, granted)
    ensures PM.FreshTokens(db, granted)
  {
    hide PM.DueIds, PM.NotAfter, PM.FreshTokens;
  }

  lemma OwnGrants(db: PM.Db, db': PM.Db, granted: map<TaskId, Token>)
    requires PM.FreshTokens(db, granted)
    ensures OwnTokens(PR.GrantsOf(db', granted))
  {
    hide PR.LiveTask, PM.RowsOf;
  }

  lemma PgCallCan(db: PM.Db, call: Call) returns (reply: Reply, db': PM.Db)
    ensures PR.Step(db, call, reply, db')
    ensures OwnTokens(Granted(reply)) && (call.ClaimDue? ==> reply.Claimed?)
  {
    hide PM.ClaimStep, PR.GrantsOf;
    if call.ClaimDue? {
      var granted;
      granted, db' := ClaimCan(db, call.queue, call.limit, call.lease, call.now);
      reply := Claimed(PR.GrantsOf(db', granted));
    } else {
      var after := match call
        case Enqueue(id, task) => PM.AfterEnqueue(db, id, task)
        case ExtendLease(id, token, lease, now) => PM.AfterExtendLease(db, id, token, lease, now)
        case Reschedule(id, token, a, nextAt) => PM.AfterReschedule(db, id, token, a, nextAt)
        case Complete(id, token, a, now) => PM.AfterComplete(db, id, token, a)
        case DeadLetter(id, token, a, now) => PM.AfterDeadLetter(db, id, token, a, now)
        case Redrive(queue, sel, now) => PM.AfterRedrive(db, queue, sel, now)
        case Purge(queue, sel) => PM.AfterPurge(db, queue, sel)
        case PurgeSucceeded(queue, olderThan) => PM.AfterPurgeSucceeded(db, queue, olderThan)
        case ClaimDue(_, _, _, _) => (db, Done);
      db', reply := after.0, after.1;
    }
  }

  /** Every enabled action has a next state on the tables too, whatever they hold. */
  lemma PgNeverStuck(max: Limits, a: PgSys, act: Act) returns (reply: Reply, b: PgSys)
    requires Enabled(max, PR.Abs(a.db), a.jobs, act)
    ensures PgNext(max, a, act, reply, b)
  {
    hide PR.Step, PR.Abs, JobsStep, HistStep, OwnTokens, JobsAfter, HistAfter;
    var call := CallOf(max, a.jobs, act);
    var db' := a.db;
    reply := Done;
    if call.Some? {
      reply, db' := PgCallCan(a.db, call.value);
    } else {
      NoGrants();
    }
    JobsCanStep(a.jobs, act, reply);
    HistoryCanStep(a.hist, PR.Abs(a.db), act, reply, PR.Abs(db'));
    b := PgSys(db', JobsAfter(a.jobs, act, Granted(reply)),
               HistAfter(a.hist, PR.Abs(a.db), act, Granted(reply), PR.Abs(db')));
  }

  lemma PgRunsGoOn(max: Limits, r: PgRun, act: Act) returns (r': PgRun)
    requires IsPgRun(max, r) && Enabled(max, PR.Abs(r.states[|r.acts|].db), r.states[|r.acts|].jobs, act)
    ensures IsPgRun(max, r') && r'.acts == r.acts + [act] && r'.states[..|r.states|] == r.states
  {
    hide PgNext, Enabled;
    var reply, b := PgNeverStuck(max, r.states[|r.acts|], act);
    r' := PgRun(r.states + [b], r.acts + [act], r.replies + [reply]);
    forall i | 0 <= i < |r'.acts| ensures PgNext(max, r'.states[i], r'.acts[i], r'.replies[i], r'.states[i + 1]) {
      if i < |r.acts| {
        assert PgNext(max, r.states[i], r.acts[i], r.replies[i], r.states[i + 1]);
      }
    }
  }
}
