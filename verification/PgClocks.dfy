/** What a sweep takes from the relational store, and how it records a lost claim, over whole
    runs: in terms of the history a reader sees. */
module PgClocks {
  import opened Spi
  import opened Ordering
  import opened Engine
  import opened System
  import opened Backends
  import opened PgModel
  import L = Lifecycle
  import P = Provenance
  import PR = PgRefines

  /** The latest time an attempt of a history finished; None if none did. */
  function LatestFinish(h: seq<Attempt>): Option<Time>
    decreases |h|
  {
    if h == [] then None
    else
      var earlier, last := LatestFinish(h[..|h| - 1]), h[|h| - 1].finishedAt;
      if earlier.None? then last
      else if last.None? || last.value < earlier.value then earlier
      else last
  }

  /** Every recorded finish of these attempts is before t. */
  predicate AllBefore(h: seq<Attempt>, t: Time) {
    forall k :: 0 <= k < |h| && h[k].finishedAt.Some? ==> h[k].finishedAt.value < t
  }

  predicate SomeFinished(h: seq<Attempt>) { exists k :: 0 <= k < |h| && h[k].finishedAt.Some? }

  lemma {:induction false} LatestIsLatest(h: seq<Attempt>, t: Time)
    ensures LatestFinish(h).Some? <==> SomeFinished(h)
    ensures LatestFinish(h).Some? ==> (LatestFinish(h).value < t <==> AllBefore(h, t))
    decreases |h|
  {
    if h != [] {
      var n := |h| - 1;
      var init, last := h[..n], h[n];
      LatestIsLatest(init, t);
      assert h == init + [last];
      FinishedMore(init, last, t);
      if LatestFinish(init).None? {
        assert AllBefore(init, t);
      }
    }
  }

  lemma FinishedMore(init: seq<Attempt>, last: Attempt, t: Time)
    ensures SomeFinished(init + [last]) <==> SomeFinished(init) || last.finishedAt.Some?
    ensures AllBefore(init + [last], t) <==> AllBefore(init, t) && (last.finishedAt.Some? ==> last.finishedAt.value < t)
  {
    var h := init + [last];
    assert h[|init|] == last && forall k :: 0 <= k < |init| ==> h[k] == init[k];
  }

  /** The place of a row in the history. */
  lemma RowPlace(rows: Rows, n: int) returns (k: nat)
    requires n in rows
    ensures k < |History(rows)| && History(rows)[k] == rows[n]
  {
    hide Listing;
    ListedNos(rows);
    var nos := Listing(NoKeys(rows));
    assert Key(n, "") in Elements(nos);
    k :| 0 <= k < |nos| && nos[k] == Key(n, "");
  }

  lemma PlaceRow(rows: Rows, k: nat) returns (n: int)
    requires k < |History(rows)|
    ensures n in rows && History(rows)[k] == rows[n]
  {
    hide Listing;
    ListedNos(rows);
    var nos := Listing(NoKeys(rows));
    assert nos[k] in nos;
    n := nos[k].at;
  }

  /** When a task counts as finished: its latest recorded finish, or else its creation. */
  ghost function FinishedAt(t: Task): Time {
    if LatestFinish(t.attempts).Some? then LatestFinish(t.attempts).value else t.createdAt
  }

  lemma FinishedBeforeIs(db: Db, id: TaskId, olderThan: Time)
    requires id in db.task
    ensures FinishedBefore(db, id, olderThan) <==> FinishedAt(Found(db, id).value) < olderThan
  {
    hide History, LatestFinish, SomeFinished, AllBefore;
    var h := History(RowsOf(db.attempt, id));
    LatestIsLatest(h, olderThan);
    RowsSomeFinished(RowsOf(db.attempt, id));
    RowsAllBefore(RowsOf(db.attempt, id), olderThan);
  }

  lemma RowsSomeFinished(rows: Rows)
    ensures (exists n :: n in rows && rows[n].finishedAt.Some?) <==> SomeFinished(History(rows))
  {
    hide History;
    if n :| n in rows && rows[n].finishedAt.Some? {
      var k := RowPlace(rows, n);
      assert History(rows)[k].finishedAt.Some?;
    }
    if SomeFinished(History(rows)) {
      var k :| 0 <= k < |History(rows)| && History(rows)[k].finishedAt.Some?;
      var n := PlaceRow(rows, k);
      assert rows[n].finishedAt.Some?;
    }
  }

  lemma RowsAllBefore(rows: Rows, t: Time)
    ensures (forall n :: n in rows && rows[n].finishedAt.Some? ==> rows[n].finishedAt.value < t) <==> AllBefore(History(rows), t)
  {
    hide History;
    if AllBefore(History(rows), t) {
      forall n | n in rows && rows[n].finishedAt.Some? ensures rows[n].finishedAt.value < t {
        var k := RowPlace(rows, n);
        assert History(rows)[k].finishedAt.value < t;
      }
    }
    if forall n :: n in rows && rows[n].finishedAt.Some? ==> rows[n].finishedAt.value < t {
      forall k | 0 <= k < |History(rows)| && History(rows)[k].finishedAt.Some? ensures History(rows)[k].finishedAt.value < t {
        var n := PlaceRow(rows, k);
        assert rows[n].finishedAt.value < t;
      }
    }
  }

  /** A sweep takes exactly the succeeded tasks of its queue that finished before the cut-off, and
      counts them. */
  lemma SweepExact(db: Db, queue: string, olderThan: Time, id: TaskId)
    requires id in db.task
    ensures var t := Found(db, id).value;
            id !in AfterPurgeSucceeded(db, queue, olderThan).0.task <==>
            t.status == Succeeded && t.queue == queue && FinishedAt(t) < olderThan
  {
    hide FinishedBefore, History, LatestFinish;
    FinishedBeforeIs(db, id, olderThan);
  }

  /** After an accepted completion, a sweep of the queue takes the task exactly when this attempt
      and every earlier one finished before the cut-off. */
  lemma CompleteThenSweep(db: Db, id: TaskId, token: Token, a: Attempt, finished: Time, olderThan: Time)
    requires PR.Inv(db) && AfterComplete(db, id, token, a).1 == Done && a.finishedAt == Some(finished)
    requires a.no == |History(RowsOf(db.attempt, id))| + 1
    ensures var done := AfterComplete(db, id, token, a).0;
            && id in db.task && id in done.task
            && var before := History(RowsOf(db.attempt, id));
               id !in AfterPurgeSucceeded(done, db.task[id].queue, olderThan).0.task <==>
               finished < olderThan && AllBefore(before, olderThan)
  {
    hide History, LatestFinish, AfterPurgeSucceeded, PR.Inv, PR.Numbered;
    var done := AfterComplete(db, id, token, a).0;
    var before := History(RowsOf(db.attempt, id));
    PR.RowFacts(db, id);
    PR.NumberedAppend(RowsOf(db.attempt, id), a);
    PR.RowsAfterInsert(db.attempt, id, a);
    SweepExact(done, db.task[id].queue, olderThan, id);
    LatestIsLatest(before + [a], olderThan);
    FinishedMore(before, a, olderThan);
  }

  // ---------- runs ----------

  /** Only the engine completes a task, and the attempt it records ended when the handler did. */
  lemma EngineCompletes(max: Limits, a: Sys, act: Act, reply: Reply, b: Sys)
    requires Next(max, a, act, reply, b) && CallOf(max, a.jobs, act).Some? && CallOf(max, a.jobs, act).value.Complete? && reply == Done
    ensures act.Finish? && act.inputs.result == Ok
    ensures CallOf(max, a.jobs, act).value.attempt.finishedAt == Some(act.inputs.finished)
  {
    hide JobsStep, HistStep, Invokes;
  }

  lemma OnlyCompletesSucceed(call: Call, reply: Reply, before: Option<L.Rec>, id: TaskId, after: L.Rec)
    requires P.AsTold(call, reply, before, id, after) && after.task.status == Succeeded
    requires call.Enqueue? ==> Fresh(call.task)
    ensures call.Complete? && after.task.attempts != []
    ensures after.task.attempts[|after.task.attempts| - 1].finishedAt == call.attempt.finishedAt
  {
  }

  lemma SucceededBy(max: Limits, r: Run, i: nat, id: TaskId) returns (j: nat)
    requires IsRun(max, r) && i < |r.states| && id in r.states[i].store.tasks && r.states[i].store.tasks[id].task.status == Succeeded
    ensures j < i && r.acts[j].Finish? && r.acts[j].inputs.result == Ok
    ensures var h := r.states[i].store.tasks[id].task.attempts;
            h != [] && h[|h| - 1].finishedAt == Some(r.acts[j].inputs.finished)
  {
    hide Next, P.AsTold, CallOf, Enabled;
    j := P.LastTold(max, r, i, id);
    ToldSucceeded(max, r, j, id);
  }

  lemma ToldSucceeded(max: Limits, r: Run, j: nat, id: TaskId)
    requires IsRun(max, r) && j < |r.acts| && P.ToldAt(max, r, j, id) && r.states[j + 1].store.tasks[id].task.status == Succeeded
    ensures r.acts[j].Finish? && r.acts[j].inputs.result == Ok
    ensures var h := r.states[j + 1].store.tasks[id].task.attempts;
            h != [] && h[|h| - 1].finishedAt == Some(r.acts[j].inputs.finished)
  {
    hide P.AsTold, CallOf, Enabled, L.Step, JobsStep, HistStep;
    var a, act := r.states[j], r.acts[j];
    assert Next(max, a, act, r.replies[j], r.states[j + 1]);
    var call := CallOf(max, a.jobs, act).value;
    if call.Enqueue? {
      SubmitsFresh(max, a.store, a.jobs, act);
    }
    OnlyCompletesSucceed(call, r.replies[j], P.Before(a.store, id), id, r.states[j + 1].store.tasks[id]);
    EngineCompletes(max, a, act, r.replies[j], r.states[j + 1]);
  }

  /** In any run a sweep takes a succeeded task exactly when it is of the queue and its latest
      recorded finish, which is no earlier than that of the handler run that completed it, is
      before the cut-off. */
  lemma RunSweep(max: Limits, r: PgRun, i: nat, id: TaskId) returns (j: nat, latest: Time)
    requires IsPgRun(max, r) && i < |r.acts| && r.acts[i].Other? && r.acts[i].call.PurgeSucceeded?
    requires id in r.states[i].db.task && r.states[i].db.task[id].status == Succeeded
    ensures j < i && r.acts[j].Finish? && r.acts[j].inputs.result == Ok && r.acts[j].inputs.finished <= latest
    ensures LatestFinish(Found(r.states[i].db, id).value.attempts) == Some(latest)
    ensures id !in r.states[i + 1].db.task <==>
            r.states[i].db.task[id].queue == r.acts[i].call.queue && latest < r.acts[i].call.olderThan
  {
    hide PgNext, LatestFinish, History, AfterPurgeSucceeded;
    var db := r.states[i].db;
    j := RowCompletedBy(max, r, i, id);
    latest := LastFinishCounts(History(RowsOf(db.attempt, id)), r.acts[j].inputs.finished);
    SweepExact(db, r.acts[i].call.queue, r.acts[i].call.olderThan, id);
    SweepCall(max, r.states[i], r.acts[i], r.replies[i], r.states[i + 1]);
  }

  /** The last row of a succeeded task's history is the handler run that completed it. */
  lemma RowCompletedBy(max: Limits, r: PgRun, i: nat, id: TaskId) returns (j: nat)
    requires IsPgRun(max, r) && i < |r.states| && id in r.states[i].db.task && r.states[i].db.task[id].status == Succeeded
    ensures j < i && r.acts[j].Finish? && r.acts[j].inputs.result == Ok
    ensures var h := History(RowsOf(r.states[i].db.attempt, id));
            h != [] && h[|h| - 1].finishedAt == Some(r.acts[j].inputs.finished)
  {
    hide PgNext, IsRun, History, PR.Abs;
    PgRunsRefine(max, r);
    PR.RecordAt(r.states[i].db, id);
    j := SucceededBy(max, AbsPgRun(r), i, id);
  }

  lemma LastFinishCounts(h: seq<Attempt>, finished: Time) returns (latest: Time)
    requires h != [] && h[|h| - 1].finishedAt == Some(finished)
    ensures LatestFinish(h) == Some(latest) && finished <= latest
  {
    latest := LatestFinish(h).value;
  }

  lemma SweepCall(max: Limits, a: PgSys, act: Act, reply: Reply, b: PgSys)
    requires PgNext(max, a, act, reply, b) && act.Other? && act.call.PurgeSucceeded?
    ensures b.db == AfterPurgeSucceeded(a.db, act.call.queue, act.call.olderThan).0
  {
    hide PR.Abs, JobsStep, HistStep, AfterPurgeSucceeded;
  }

  // ---------- lost claims ----------

  /** A reclaim appends one attempt to the history as a reader sees it: numbered next, begun when
      the lease lapsed, ended now. */
  lemma ReclaimRecord(db: Db, queue: string, limit: int, lease: int, now: Time, granted: map<TaskId, Token>, db': Db, id: TaskId)
    requires PR.Inv(db) && ClaimStep(db, queue, limit, lease, now, granted, db') && Reclaims(db, granted, id)
    ensures db.task[id].leaseAt.Some? && db.task[id].leaseAt.value <= now
    ensures Found(db, id).Some? && Found(db', id).Some?
    ensures var before, after := Found(db, id).value, Found(db', id).value;
            after == before.(attemptCount := before.attemptCount + 1, leaseAt := Some(now + lease),
                             attempts := before.attempts +
                               [Attempt(|before.attempts| + 1, db.task[id].leaseAt.value, Some(now), LeaseExpired,
                                        Some(Error("rdq.LeaseExpired", "lease expired before an outcome was reported")))])
  {
    hide History, MaxNo, ClaimStep, PR.Inv, WithExpiry;
    ReclaimedRow(db, queue, limit, lease, now, granted, db', id);
    PR.RowFacts(db, id);
    ExpiryAppended(RowsOf(db.attempt, id), db.task[id], now);
  }

  lemma ReclaimedRow(db: Db, queue: string, limit: int, lease: int, now: Time, granted: map<TaskId, Token>, db': Db, id: TaskId)
    requires ClaimStep(db, queue, limit, lease, now, granted, db') && Reclaims(db, granted, id)
    ensures db.task[id].leaseAt.Some? && db.task[id].leaseAt.value <= now
    ensures id in db'.task && db'.task[id] == LeasedRow(db.task[id], granted[id], lease, now)
    ensures RowsOf(db'.attempt, id) == WithExpiry(RowsOf(db.attempt, id), db.task[id], now)
  {
    hide WithExpiry, LeasedRow, FreshTokens, NotAfter;
    assert id in DueIds(db, queue, now);
    assert id in db'.attempt;
  }

  lemma ExpiryAppended(rows: Rows, row: TaskRow, now: Time)
    requires PR.Numbered(rows) && row.leaseAt.Some?
    ensures History(WithExpiry(rows, row, now)) == History(rows) +
              [Attempt(|History(rows)| + 1, row.leaseAt.value, Some(now), LeaseExpired,
                       Some(Error("rdq.LeaseExpired", "lease expired before an outcome was reported")))]
  {
    hide History, MaxNo, PR.Numbered;
    PR.NextNo(rows);
    PR.NumberedAppend(rows, ExpiredRow(row, MaxNo(rows) + 1, now));
  }

  /** In any run a reclaim records the lost claim as begun at the deadline the last grant or
      heartbeat set, which has passed, and as ended now. */
  lemma RunReclaimRecord(max: Limits, r: PgRun, i: nat, id: TaskId) returns (j: nat)
    requires IsPgRun(max, r) && i < |r.acts| && r.acts[i].Poll? && r.replies[i].Claimed? && id in r.replies[i].grants
    requires id in r.states[i].db.task && r.states[i].db.task[id].status == InFlight
    ensures j < i && CallOf(max, r.states[j].jobs, r.acts[j]).Some?
    ensures var call := CallOf(max, r.states[j].jobs, r.acts[j]).value;
            && (call.ClaimDue? || call.ExtendLease?) && call.now + call.lease <= r.acts[i].now
            && Found(r.states[i].db, id).Some? && Found(r.states[i + 1].db, id).Some?
            && var before, after := Found(r.states[i].db, id).value, Found(r.states[i + 1].db, id).value;
               after.attempts == before.attempts +
                 [Attempt(|before.attempts| + 1, call.now + call.lease, Some(r.acts[i].now), LeaseExpired,
                          Some(Error("rdq.LeaseExpired", "lease expired before an outcome was reported")))]
  {
    hide IsPgRun, PgNext, Found, PR.Inv, CallOf, ClaimStep, Reclaims;
    StepAt(max, r, i);
    j := LeaseSetBy(max, r, i, id);
    var granted := GrantedBy(max, r.states[i], r.acts[i], r.replies[i], r.states[i + 1], id);
    ReclaimRecord(r.states[i].db, r.acts[i].queue, r.acts[i].limit, r.acts[i].lease, r.acts[i].now, granted, r.states[i + 1].db, id);
  }

  lemma StepAt(max: Limits, r: PgRun, i: nat)
    requires IsPgRun(max, r) && i < |r.acts|
    ensures |r.states| == |r.acts| + 1 == |r.replies| + 1 && PR.Inv(r.states[i].db)
    ensures PgNext(max, r.states[i], r.acts[i], r.replies[i], r.states[i + 1])
  {
    hide PgNext, PR.Inv;
    PgStatesGood(max, r, i);
  }

  lemma LeaseSetBy(max: Limits, r: PgRun, i: nat, id: TaskId) returns (j: nat)
    requires IsPgRun(max, r) && i < |r.acts| && r.acts[i].Poll? && r.replies[i].Claimed? && id in r.replies[i].grants
    requires id in r.states[i].db.task && r.states[i].db.task[id].status == InFlight
    ensures j < i && CallOf(max, r.states[j].jobs, r.acts[j]).Some?
    ensures var call := CallOf(max, r.states[j].jobs, r.acts[j]).value;
            && (call.ClaimDue? || call.ExtendLease?) && call.now + call.lease <= r.acts[i].now
            && r.states[i].db.task[id].leaseAt == Some(call.now + call.lease)
  {
    hide PgNext, IsRun, History, PR.Abs, CallOf, P.Concerns, P.AsTold;
    PgRunsRefine(max, r);
    PR.RecordAt(r.states[i].db, id);
    j := P.NoEarlyReclaim(max, AbsPgRun(r), i, id);
  }

  lemma GrantedBy(max: Limits, a: PgSys, act: Act, reply: Reply, b: PgSys, id: TaskId) returns (granted: map<TaskId, Token>)
    requires PgNext(max, a, act, reply, b) && act.Poll? && reply.Claimed? && id in reply.grants
    ensures id in a.db.task && a.db.task[id].status == InFlight ==> Reclaims(a.db, granted, id)
    ensures ClaimStep(a.db, act.queue, act.limit, act.lease, act.now, granted, b.db)
  {
    hide PR.Abs, JobsStep, HistStep, ClaimStep, PR.LiveTask;
    granted :| ClaimStep(a.db, act.queue, act.limit, act.lease, act.now, granted, b.db) && reply == Claimed(PR.GrantsOf(b.db, granted));
  }

  /** In every reachable state the history a reader gets is numbered 1..n in order. */
  lemma RunHistories(max: Limits, r: PgRun, i: nat, id: TaskId)
    requires IsPgRun(max, r) && i < |r.states|
    ensures Found(r.states[i].db, id).Some? ==> InOrder(Found(r.states[i].db, id).value.attempts)
  {
    hide PgNext, History, PR.GoodRow, PR.GoodDead, PR.Numbered, InOrder;
    PgStatesGood(max, r, i);
    var db := r.states[i].db;
    if id in db.task || id in db.dlq {
      PR.HistoryInOrder(RowsOf(db.attempt, id));
    }
  }
}
