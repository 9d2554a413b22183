/** Whole systems on each backend. A run of workers over either store maps, state by state,
    to a run of the abstract system, so everything in Guarantees holds of both; and on the
    relational store no outcome write ever collides on its attempt number. */
module Backends {
  import opened Spi
  import opened System
  import L = Lifecycle
  import I = Invariant
  import G = Guarantees
  import MM = MemModel
  import MR = MemRefines
  import PM = PgModel
  import PR = PgRefines
  import PC = PgClaims

  // ---------- the in-memory store ----------

  datatype MemSys = MemSys(store: MM.State, jobs: map<Token, Job>, hist: Hist)

  ghost function AbsMem(a: MemSys): Sys { Sys(MR.Abs(a.store), a.jobs, a.hist) }

  ghost predicate MemNext(max: Limits, a: MemSys, act: Act, reply: Reply, b: MemSys) {
    && Enabled(max, MR.Abs(a.store), a.jobs, act)
    && MemStoreStep(max, a.store, a.jobs, act, reply, b.store)
    && JobsStep(a.jobs, act, reply, b.jobs)
    && HistStep(a.hist, MR.Abs(a.store), act, reply, MR.Abs(b.store), b.hist)
  }

  ghost predicate MemStoreStep(max: Limits, m: MM.State, jobs: map<Token, Job>, act: Act, reply: Reply, m': MM.State) {
    var call := CallOf(max, jobs, act);
    if call.Some? then (m', reply) == MR.Apply(m, call.value) else m' == m && reply == Done
  }

  datatype MemRun = MemRun(states: seq<MemSys>, acts: seq<Act>, replies: seq<Reply>)

  ghost predicate IsMemRun(max: Limits, r: MemRun) {
    && |r.states| == |r.acts| + 1 == |r.replies| + 1
    && r.states[0] == MemSys(MM.State(map[], 0, 0), map[], EMPTY.hist)
    && forall i :: 0 <= i < |r.acts| ==> MemNext(max, r.states[i], r.acts[i], r.replies[i], r.states[i + 1])
  }

  ghost function AbsMemRun(r: MemRun): Run {
    Run(seq(|r.states|, i requires 0 <= i < |r.states| => AbsMem(r.states[i])), r.acts, r.replies)
  }

  lemma MemStepAbs(max: Limits, a: MemSys, act: Act, reply: Reply, b: MemSys)
    requires MemNext(max, a, act, reply, b)
    ensures Next(max, AbsMem(a), act, reply, AbsMem(b))
  {
    hide Enabled, JobsStep, HistStep, L.Step, MR.Apply, MR.Abs, CallOf;
    var call := CallOf(max, a.jobs, act);
    if call.Some? {
      MR.MemStoreRefines(a.store, call.value);
    }
  }

  /** The store after an action is the store after the call it makes, if it makes one. */
  lemma MemStepCall(max: Limits, a: MemSys, act: Act, reply: Reply, b: MemSys)
    requires MemNext(max, a, act, reply, b)
    ensures Enabled(max, MR.Abs(a.store), a.jobs, act)
    ensures CallOf(max, a.jobs, act).None? ==> b.store == a.store
    ensures CallOf(max, a.jobs, act).Some? ==> (b.store, reply) == MR.Apply(a.store, CallOf(max, a.jobs, act).value)
  {
    hide MR.Apply, MR.Abs, HistStep, JobsStep, Enabled;
  }

  /** What a run submits is fresh. */
  lemma SubmitsFresh(max: Limits, s: L.Store, jobs: map<Token, Job>, act: Act)
    requires Enabled(max, s, jobs, act) && CallOf(max, jobs, act).Some? && CallOf(max, jobs, act).value.Enqueue?
    ensures Fresh(CallOf(max, jobs, act).value.task)
  {
    hide Fresh;
  }

  lemma MemEmpty()
    ensures MR.Abs(MM.State(map[], 0, 0)) == EMPTY.store
  {
    assert MR.Minted(0) == {};
  }

  /** Every run over the in-memory store is a run of the contract. */
  lemma MemRunsRefine(max: Limits, r: MemRun)
    requires IsMemRun(max, r)
    ensures IsRun(max, AbsMemRun(r))
  {
    hide Next, MemNext, MR.Abs;
    MemEmpty();
    var s := AbsMemRun(r);
    forall i | 0 <= i < |r.acts| ensures Next(max, s.states[i], s.acts[i], s.replies[i], s.states[i + 1]) {
      MemStepAbs(max, r.states[i], r.acts[i], r.replies[i], r.states[i + 1]);
    }
  }

  // ---------- the relational store ----------

  datatype PgSys = PgSys(db: PM.Db, jobs: map<Token, Job>, hist: Hist)

  ghost function AbsPg(a: PgSys): Sys { Sys(PR.Abs(a.db), a.jobs, a.hist) }

  ghost predicate PgNext(max: Limits, a: PgSys, act: Act, reply: Reply, b: PgSys) {
    && Enabled(max, PR.Abs(a.db), a.jobs, act)
    && PgStoreStep(max, a.db, a.jobs, act, reply, b.db)
    && JobsStep(a.jobs, act, reply, b.jobs)
    && HistStep(a.hist, PR.Abs(a.db), act, reply, PR.Abs(b.db), b.hist)
  }

  ghost predicate PgStoreStep(max: Limits, db: PM.Db, jobs: map<Token, Job>, act: Act, reply: Reply, db': PM.Db) {
    var call := CallOf(max, jobs, act);
    if call.Some? then PR.Step(db, call.value, reply, db') else db' == db && reply == Done
  }

  datatype PgRun = PgRun(states: seq<PgSys>, acts: seq<Act>, replies: seq<Reply>)

  const EMPTY_DB := PM.Db(map[], map[], map[], {})

  ghost predicate IsPgRun(max: Limits, r: PgRun) {
    && |r.states| == |r.acts| + 1 == |r.replies| + 1
    && r.states[0] == PgSys(EMPTY_DB, map[], EMPTY.hist)
    && forall i :: 0 <= i < |r.acts| ==> PgNext(max, r.states[i], r.acts[i], r.replies[i], r.states[i + 1])
  }

  ghost function AbsPgRun(r: PgRun): Run {
    Run(seq(|r.states|, i requires 0 <= i < |r.states| => AbsPg(r.states[i])), r.acts, r.replies)
  }

  /** The engine numbers an outcome one past the history of the task whose claim it holds:
      the claimed copy of the history is still the stored one. */
  lemma EngineNumbersPastHistory(max: Limits, a: PgSys, act: Act, call: Call)
    requires PR.Inv(a.db) && I.GoodJobs(PR.Abs(a.db), a.jobs, a.hist)
    requires Enabled(max, PR.Abs(a.db), a.jobs, act) && CallOf(max, a.jobs, act) == Some(call)
    ensures PR.WellNumbered(a.db, call)
  {
    hide PR.Inv, PR.Abs, PM.History, PM.RowsOf;
    match act
    case Finish(token, x) =>
      var j := a.jobs[token];
      assert I.GoodJob(PR.Abs(a.db), a.hist, token, j);
      PR.HoldsAbs(a.db, j.id, token);
      if PM.Holds(a.db, j.id, token) {
        HistoryLengths(a.db, j.id);
      }
    case Other(_) =>
      if Outcomes(call) {
        PR.HoldsAbs(a.db, call.id, call.token);
      }
    case _ =>
  }

  lemma HistoryLengths(db: PM.Db, id: TaskId)
    requires id in db.task
    ensures id in PR.Abs(db).tasks
    ensures |PR.Abs(db).tasks[id].task.attempts| == |PM.History(PM.RowsOf(db.attempt, id))|
  {
    hide PM.History, PM.RowsOf;
  }

  lemma PgStepAbs(max: Limits, a: PgSys, act: Act, reply: Reply, b: PgSys)
    requires PR.Inv(a.db) && I.Inv(max, AbsPg(a)) && PgNext(max, a, act, reply, b)
    ensures Next(max, AbsPg(a), act, reply, AbsPg(b))
    ensures PR.Inv(b.db)
    ensures reply != Violation
  {
    hide Enabled, JobsStep, HistStep, L.Step, PR.Step, PR.Abs, CallOf, PR.Inv, I.GoodRecords, I.GoodJobs, I.GoodClaims, I.GoodTokens, I.GoodInvocations, PR.WellNumbered;
    var call := CallOf(max, a.jobs, act);
    if call.Some? {
      EngineNumbersPastHistory(max, a, act, call.value);
      PC.PgStoreRefines(a.db, call.value, reply, b.db);
    }
  }

  lemma PgEmpty(max: Limits)
    ensures PR.Inv(EMPTY_DB) && PR.Abs(EMPTY_DB) == EMPTY.store && I.Inv(max, AbsPg(PgSys(EMPTY_DB, map[], EMPTY.hist)))
  {
    hide I.Inv, PM.History, PR.Numbered, PR.GoodRow, PR.GoodDead, PR.LiveRec, PR.DeadRec;
    assert PR.Abs(EMPTY_DB).tasks == map[];
    G.EmptyGood(max);
  }

  lemma {:induction false} PgStatesGood(max: Limits, r: PgRun, i: nat)
    requires IsPgRun(max, r) && i < |r.states|
    ensures PR.Inv(r.states[i].db) && I.Inv(max, AbsPg(r.states[i]))
    ensures i < |r.acts| ==>
              && Next(max, AbsPg(r.states[i]), r.acts[i], r.replies[i], AbsPg(r.states[i + 1]))
              && r.replies[i] != Violation
  {
    hide Next, PgNext, PR.Inv, I.Inv, AbsPg;
    if i == 0 {
      PgEmpty(max);
    } else {
      PgStatesGood(max, r, i - 1);
      PgStepAbs(max, r.states[i - 1], r.acts[i - 1], r.replies[i - 1], r.states[i]);
      I.StepKeepsInv(max, AbsPg(r.states[i - 1]), r.acts[i - 1], r.replies[i - 1], AbsPg(r.states[i]));
    }
    if i < |r.acts| {
      PgStepAbs(max, r.states[i], r.acts[i], r.replies[i], r.states[i + 1]);
    }
  }

  /** Every run over the relational store is a run of the contract. */
  lemma PgRunsRefine(max: Limits, r: PgRun)
    requires IsPgRun(max, r)
    ensures IsRun(max, AbsPgRun(r))
  {
    hide Next, PgNext, PR.Inv, I.Inv, PR.Abs;
    PgEmpty(max);
    var s := AbsPgRun(r);
    forall i | 0 <= i < |r.acts| ensures Next(max, s.states[i], s.acts[i], s.replies[i], s.states[i + 1]) {
      PgStatesGood(max, r, i);
    }
  }

  /** In every reachable state the tables are disjoint and each task's attempts are numbered
      exactly 1..n, redriven tasks included. */
  lemma PgNumbering(max: Limits, r: PgRun, i: nat, id: TaskId)
    requires IsPgRun(max, r) && i < |r.states|
    ensures var db := r.states[i].db;
            && db.task.Keys !! db.dlq.Keys
            && (id in db.attempt ==> id in db.task || id in db.dlq)
            && (id in db.task || id in db.dlq ==>
                  var rows := PM.RowsOf(db.attempt, id);
                  forall n :: n in rows <==> 1 <= n <= |PM.History(rows)|)
  {
    hide IsPgRun, PM.History, I.Inv;
    PgStatesGood(max, r, i);
  }

  /** No write of any run is refused by UNIQUE(task_id, attempt_no). */
  lemma PgNoViolation(max: Limits, r: PgRun, i: nat)
    requires IsPgRun(max, r) && i < |r.acts|
    ensures r.replies[i] != Violation
  {
    PgStatesGood(max, r, i);
  }

  /** The dead-letter column always names the final attempt's error type. */
  lemma PgErrorTypeFaithful(max: Limits, r: PgRun, i: nat, id: TaskId)
    requires IsPgRun(max, r) && i < |r.states| && id in r.states[i].db.dlq
    ensures var db := r.states[i].db;
            var kind := FinalErrorType(PM.History(PM.RowsOf(db.attempt, id)));
            db.dlq[id].errorType == if kind == "" then None else Some(kind)
  {
    hide IsPgRun, PM.History, I.Inv, PR.Numbered;
    PgStatesGood(max, r, i);
  }
}
