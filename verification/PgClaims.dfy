/** The relational claim transaction refines the contract's ClaimDue and keeps the
    relational invariant: reclaimed tasks gain one LEASE_EXPIRED row past their history. */
module PgClaims {
  import opened Spi
  import opened PgModel
  import opened PgRefines
  import L = Lifecycle

  lemma DueAbs(db: Db, queue: string, now: Time)
    requires Inv(db)
    ensures L.DueSet(Abs(db), queue, now) == DueIds(db, queue, now)
  {
    hide History, Numbered, GoodDead, RowsOf, QueueOf, Abs, LiveRec, DeadRec;
    AbsAt(db, "");
    forall id | id in db.task || id in db.dlq
      ensures id in L.DueSet(Abs(db), queue, now) <==> id in DueIds(db, queue, now)
    {
      AbsAt(db, id);
      if id in db.task {
        DueLive(db.task[id], RowsOf(db.attempt, id), queue, now);
      } else {
        DueDead(db.dlq[id], RowsOf(db.attempt, id), now);
      }
    }
  }

  lemma DueLive(row: TaskRow, rows: Rows, queue: string, now: Time)
    ensures Due(row, queue, now) <==> LiveRec(row, rows).task.queue == queue && IsDue(LiveRec(row, rows).task, now)
    ensures LiveRec(row, rows).task.nextAt == row.nextAt
  {
    hide History;
  }

  lemma DueDead(row: DlqRow, rows: Rows, now: Time)
    ensures !IsDue(DeadRec(row, rows).task, now)
  {
    hide History;
  }

  /** The attempt rows of each task after a claim. */
  lemma RowsAfterClaim(db: Db, now: Time, granted: map<TaskId, Token>, att': AttemptTable, id: TaskId)
    requires ExpiriesRecorded(db, now, granted, att')
    ensures RowsOf(att', id) == if Reclaims(db, granted, id) then WithExpiry(RowsOf(db.attempt, id), db.task[id], now)
                                else RowsOf(db.attempt, id)
  {
    hide WithExpiry;
  }

  lemma ExpiryAppends(rows: Rows, row: TaskRow, now: Time)
    requires Numbered(rows)
    ensures Numbered(WithExpiry(rows, row, now))
    ensures L.NormAll(History(WithExpiry(rows, row, now))) == L.NormAll(History(rows)) + [L.Norm(L.ExpiredAttempt(now))]
  {
    hide History, Numbered, MaxNo;
    NextNo(rows);
    NumberedAppend(rows, ExpiredRow(row, MaxNo(rows) + 1, now));
  }

  /** A leased row and its attempts against the contract's leased record. */
  lemma LeasedAbs(row: TaskRow, rows: Rows, token: Token, lease: int, now: Time)
    requires Numbered(rows)
    ensures var rows' := if row.status.InFlight? then WithExpiry(rows, row, now) else rows;
            && Numbered(rows')
            && LiveRec(LeasedRow(row, token, lease, now), rows') == L.Leased(LiveRec(row, rows), token, lease, now)
  {
    hide History, Numbered, MaxNo, L.NormAll, WithExpiry;
    ExpiryAppends(rows, row, now);
  }

  lemma ClaimedRecord(db: Db, queue: string, limit: int, lease: int, now: Time, granted: map<TaskId, Token>, db': Db, id: TaskId)
    requires Inv(db) && limit > 0 && ClaimStep(db, queue, limit, lease, now, granted, db') && id in db.task
    ensures id in db'.task && Numbered(RowsOf(db'.attempt, id))
    ensures LiveRec(db'.task[id], RowsOf(db'.attempt, id)) ==
              if id in granted then L.Leased(LiveRec(db.task[id], RowsOf(db.attempt, id)), granted[id], lease, now)
              else LiveRec(db.task[id], RowsOf(db.attempt, id))
  {
    hide History, Numbered, Inv, LiveRec, WithExpiry, RowsOf, AllowedClaims, ExpiriesRecorded, LeasedRow, L.Leased, GoodRow;
    RowFacts(db, id);
    RowsAfterClaim(db, now, granted, db'.attempt, id);
    if id in granted {
      LeasedAbs(db.task[id], RowsOf(db.attempt, id), granted[id], lease, now);
    }
  }

  lemma DeadUntouched(db: Db, queue: string, limit: int, lease: int, now: Time, granted: map<TaskId, Token>, db': Db, id: TaskId)
    requires Inv(db) && limit > 0 && ClaimStep(db, queue, limit, lease, now, granted, db') && id in db.dlq
    ensures id !in db'.task && id in db'.dlq && db'.dlq[id] == db.dlq[id]
    ensures RowsOf(db'.attempt, id) == RowsOf(db.attempt, id)
  {
    hide Numbered, GoodDead, GoodRow, WithExpiry, RowsOf, AllowedClaims, ExpiriesRecorded;
    RowsAfterClaim(db, now, granted, db'.attempt, id);
  }

  lemma ClaimKeepsRow(db: Db, queue: string, limit: int, lease: int, now: Time, granted: map<TaskId, Token>, db': Db, id: TaskId)
    requires Inv(db) && limit > 0 && ClaimStep(db, queue, limit, lease, now, granted, db') && id in db.task
    ensures id in db'.task && GoodRow(db'.task[id], db'.issued)
  {
    hide Numbered, GoodDead, RowsOf, ExpiriesRecorded, Inv;
    RowFacts(db, id);
    if id in granted {
      assert granted[id] in granted.Values;
    }
  }

  lemma OwnersAfterClaim(db: Db, now: Time, granted: map<TaskId, Token>, att': AttemptTable)
    requires ExpiriesRecorded(db, now, granted, att')
    requires db.attempt.Keys <= db.task.Keys + db.dlq.Keys
    ensures att'.Keys <= db.task.Keys + db.dlq.Keys
  {
    hide WithExpiry;
  }

  lemma ClaimKeepsInv(db: Db, queue: string, limit: int, lease: int, now: Time, granted: map<TaskId, Token>, db': Db)
    requires Inv(db) && limit > 0 && ClaimStep(db, queue, limit, lease, now, granted, db')
    ensures Inv(db')
  {
    hide Numbered, GoodDead, GoodRow, RowsOf, ExpiriesRecorded, LeasedRow, AllowedClaims, LiveRec, History;
    OwnersAfterClaim(db, now, granted, db'.attempt);
    forall id | id in db'.task ensures GoodRow(db'.task[id], db'.issued) && Numbered(RowsOf(db'.attempt, id)) {
      ClaimKeepsRow(db, queue, limit, lease, now, granted, db', id);
      ClaimedRecord(db, queue, limit, lease, now, granted, db', id);
    }
    forall id | id in db'.dlq
      ensures GoodDead(db'.dlq[id], RowsOf(db'.attempt, id)) && Numbered(RowsOf(db'.attempt, id))
    {
      DeadUntouched(db, queue, limit, lease, now, granted, db', id);
    }
  }

  /** The grants the worker sees. */
  lemma GrantsAt(db': Db, granted: map<TaskId, Token>)
    requires granted.Keys <= db'.task.Keys
    ensures GrantsOf(db', granted).Keys == granted.Keys
    ensures forall id :: id in granted ==>
              GrantsOf(db', granted)[id] == Grant(granted[id], LiveRec(db'.task[id], RowsOf(db'.attempt, id)).task)
  {
    hide History;
  }

  lemma GrantsFair(db: Db, queue: string, limit: int, now: Time, granted: map<TaskId, Token>, db': Db)
    requires Inv(db) && limit > 0 && AllowedClaims(db, queue, limit, now, granted) && granted.Keys <= db'.task.Keys
    ensures L.FairGrants(Abs(db), queue, limit, now, GrantsOf(db', granted))
  {
    hide History, Numbered, GoodDead, GoodRow, RowsOf, Inv, Abs, GrantsOf, LiveRec, DeadRec, L.DueSet, DueIds, QueueOf, Due;
    GrantsAt(db', granted);
    DueAbs(db, queue, now);
    RedriveMinted(db, db);
    var g := GrantsOf(db', granted);
    assert |g| == |granted| by { assert |g.Keys| == |granted.Keys|; }
    DueInTask(db, queue, now);
    IssuedMinted(db);
    forall id, other | id in g && other in L.DueSet(Abs(db), queue, now) && other !in g
      ensures id in Abs(db).tasks && other in Abs(db).tasks
      ensures Abs(db).tasks[id].task.nextAt.Some? && Abs(db).tasks[other].task.nextAt.Some?
              ==> Abs(db).tasks[id].task.nextAt.value <= Abs(db).tasks[other].task.nextAt.value
    {
      AbsAt(db, id);
      AbsAt(db, other);
      DueLive(db.task[id], RowsOf(db.attempt, id), queue, now);
      DueLive(db.task[other], RowsOf(db.attempt, other), queue, now);
      assert NotAfter(db.task[id], db.task[other]);
    }
  }

  lemma IssuedMinted(db: Db)
    ensures Abs(db).minted == db.issued
  {
  }

  lemma DueInTask(db: Db, queue: string, now: Time)
    ensures DueIds(db, queue, now) <= db.task.Keys
  {
  }

  lemma TokensOf(db': Db, granted: map<TaskId, Token>)
    requires granted.Keys <= db'.task.Keys
    ensures L.Tokens(GrantsOf(db', granted)) == granted.Values
  {
    hide LiveRec, LiveTask, GrantsOf;
    GrantsAt(db', granted);
    var g := GrantsOf(db', granted);
    forall t | t in granted.Values ensures t in L.Tokens(g) {
      var id :| id in granted && granted[id] == t;
      assert g[id].token == t;
    }
  }

  lemma ClaimRefines(db: Db, queue: string, limit: int, lease: int, now: Time, granted: map<TaskId, Token>, db': Db)
    requires Inv(db) && ClaimStep(db, queue, limit, lease, now, granted, db')
    ensures L.ClaimStep(Abs(db), queue, limit, lease, now, Claimed(GrantsOf(db', granted)), Abs(db'))
    ensures Inv(db')
  {
    hide Inv, Abs, L.FairGrants, AllowedClaims, ExpiriesRecorded, LeasedRow, L.Leased, LiveRec, DeadRec, RowsOf, GrantsOf, L.Tokens, Numbered, GoodDead, QueueOf;
    if limit <= 0 {
      GrantsAt(db', granted);
      assert GrantsOf(db', granted) == map[];
    } else {
      GrantedInTask(db, queue, limit, now, granted);
      ClaimKeepsInv(db, queue, limit, lease, now, granted, db');
      GrantsFair(db, queue, limit, now, granted, db');
      TokensOf(db', granted);
      IssuedMinted(db);
      IssuedMinted(db');
      GrantsAt(db', granted);
      AbsAt(db, "");
      AbsAt(db', "");
      forall id | id in db.task || id in db.dlq
        ensures id in Abs(db).tasks && id in Abs(db').tasks
        ensures Abs(db').tasks[id] == if id in granted then L.Leased(Abs(db).tasks[id], granted[id], lease, now)
                                      else Abs(db).tasks[id]
        ensures id in granted ==> GrantsOf(db', granted)[id].task == Abs(db').tasks[id].task
      {
        ClaimedAbs(db, queue, limit, lease, now, granted, db', id);
      }
    }
  }

  lemma GrantedInTask(db: Db, queue: string, limit: int, now: Time, granted: map<TaskId, Token>)
    requires AllowedClaims(db, queue, limit, now, granted)
    ensures granted.Keys <= db.task.Keys
  {
  }

  lemma ClaimedAbs(db: Db, queue: string, limit: int, lease: int, now: Time, granted: map<TaskId, Token>, db': Db, id: TaskId)
    requires Inv(db) && limit > 0 && ClaimStep(db, queue, limit, lease, now, granted, db')
    requires id in db.task || id in db.dlq
    requires granted.Keys <= db.task.Keys
    ensures id in Abs(db).tasks && id in Abs(db').tasks
    ensures Abs(db').tasks[id] == if id in granted then L.Leased(Abs(db).tasks[id], granted[id], lease, now)
                                  else Abs(db).tasks[id]
    ensures id in granted ==> id in GrantsOf(db', granted) && GrantsOf(db', granted)[id].task == Abs(db').tasks[id].task
  {
    hide Inv, Abs, AllowedClaims, ExpiriesRecorded, LeasedRow, L.Leased, LiveRec, DeadRec, RowsOf, GrantsOf, Numbered, GoodDead, GoodRow, QueueOf;
    AbsAt(db, id);
    AbsAt(db', id);
    GrantsAt(db', granted);
    if id in db.task {
      ClaimedRecord(db, queue, limit, lease, now, granted, db', id);
    } else {
      DeadUntouched(db, queue, limit, lease, now, granted, db', id);
    }
  }

  /** Every call an engine makes: the transaction is a step of the contract, keeps the
      relational invariant and never violates UNIQUE(task_id, attempt_no). */
  lemma PgStoreRefines(db: Db, call: Call, reply: Reply, db': Db)
    requires Inv(db) && Step(db, call, reply, db') && WellNumbered(db, call)
    ensures L.Step(Abs(db), call, reply, Abs(db'))
    ensures Inv(db')
    ensures reply != Violation
  {
    hide Inv, Abs, History, RowsOf, ClaimStep, L.ClaimStep, L.RedriveStep, L.PurgeStep, L.SweepStep, L.EnqueueStep, L.FencedStep;
    match call
    case Enqueue(id, task) => AdmissibleRefines(db, id, task);
    case ClaimDue(queue, limit, lease, now) =>
      var granted :| ClaimStep(db, queue, limit, lease, now, granted, db') && reply == Claimed(GrantsOf(db', granted));
      ClaimRefines(db, queue, limit, lease, now, granted, db');
    case ExtendLease(id, token, lease, now) => ExtendRefines(db, id, token, lease, now);
    case Reschedule(id, token, a, nextAt) => RescheduleRefines(db, id, token, a, nextAt);
    case Complete(id, token, a, now) => CompleteRefines(db, id, token, a, now);
    case DeadLetter(id, token, a, now) => BurialRefines(db, id, token, a, now);
    case Redrive(queue, sel, now) => RedriveRefines(db, queue, sel, now);
    case Purge(queue, sel) => PurgeRefines(db, queue, sel);
    case PurgeSucceeded(queue, olderThan) => SweepRefines(db, queue, olderThan);
  }
}
