/** The two-table store refines the one-map contract. A relational invariant (disjoint
    tables, owned attempts numbered 1..n, faithful denormalised columns) is kept by every
    call the engine makes; under it each transaction commutes with the abstraction and the
    unique constraint is never hit. */
module PgRefines {
  import opened Spi
  import opened Ordering
  import opened PgModel
  import L = Lifecycle

  // ---------- abstraction ----------

  ghost function LiveTask(row: TaskRow, rows: Rows): Task {
    Task(row.queue, row.handlerRef, row.body, row.createdAt, row.status, row.attemptCount, row.redriveCount,
         row.nextAt, row.leaseAt, L.NormAll(History(rows)))
  }

  ghost function LiveRec(row: TaskRow, rows: Rows): L.Rec {
    L.Rec(LiveTask(row, rows), if row.claimToken.Some? then row.claimToken.value else "", ZERO_TIME)
  }

  ghost function DeadTask(row: DlqRow, rows: Rows): Task {
    Task(row.queue, row.handlerRef, row.body, row.createdAt, Dead, row.attemptCount, row.redriveCount,
         None, None, L.NormAll(History(rows)))
  }

  ghost function DeadRec(row: DlqRow, rows: Rows): L.Rec {
    L.Rec(DeadTask(row, rows), "", row.deadAt)
  }

  ghost function AbsRec(db: Db, id: TaskId): L.Rec
    requires id in db.task || id in db.dlq
  {
    if id in db.task then LiveRec(db.task[id], RowsOf(db.attempt, id))
    else DeadRec(db.dlq[id], RowsOf(db.attempt, id))
  }

  ghost function Abs(db: Db): L.Store {
    L.Store(map id | id in db.task.Keys + db.dlq.Keys :: AbsRec(db, id), db.issued)
  }

  // ---------- invariant ----------

  /** Numbered exactly 1..n, each row under its own number. */
  ghost predicate Numbered(rows: Rows) {
    && (forall k :: k in rows <==> 1 <= k <= |History(rows)|)
    && (forall k :: k in rows ==> rows[k].no == k)
  }

  predicate GoodRow(row: TaskRow, issued: set<Token>) {
    && !row.status.Dead?
    && (row.claimToken.Some? <==> row.status.InFlight?)
    && (row.claimToken.Some? ==> row.claimToken.value != "" && row.claimToken.value in issued)
  }

  /** The denormalised column is the final attempt's error type. */
  ghost predicate GoodDead(row: DlqRow, rows: Rows) {
    row.errorType == (if FinalErrorType(History(rows)) == "" then None else Some(FinalErrorType(History(rows))))
  }

  ghost predicate Inv(db: Db) {
    && db.task.Keys !! db.dlq.Keys
    && db.attempt.Keys <= db.task.Keys + db.dlq.Keys
    && (forall id :: id in db.task ==> GoodRow(db.task[id], db.issued) && Numbered(RowsOf(db.attempt, id)))
    && (forall id :: id in db.dlq ==>
          GoodDead(db.dlq[id], RowsOf(db.attempt, id)) && Numbered(RowsOf(db.attempt, id)))
  }

  // ---------- calls ----------

  /** What the relational store may do for a call. Only claiming is nondeterministic: the
      order of ties and the tokens generated. */
  ghost predicate Step(db: Db, call: Call, reply: Reply, db': Db) {
    match call
    case Enqueue(id, task) => (db', reply) == AfterEnqueue(db, id, task)
    case ClaimDue(queue, limit, lease, now) =>
      exists granted :: ClaimStep(db, queue, limit, lease, now, granted, db') && reply == Claimed(GrantsOf(db', granted))
    case ExtendLease(id, token, lease, now) => (db', reply) == AfterExtendLease(db, id, token, lease, now)
    case Reschedule(id, token, a, nextAt) => (db', reply) == AfterReschedule(db, id, token, a, nextAt)
    case Complete(id, token, a, now) => (db', reply) == AfterComplete(db, id, token, a)
    case DeadLetter(id, token, a, now) => (db', reply) == AfterDeadLetter(db, id, token, a, now)
    case Redrive(queue, sel, now) => (db', reply) == AfterRedrive(db, queue, sel, now)
    case Purge(queue, sel) => (db', reply) == AfterPurge(db, queue, sel)
    case PurgeSucceeded(queue, olderThan) => (db', reply) == AfterPurgeSucceeded(db, queue, olderThan)
  }

  ghost function GrantsOf(db': Db, granted: map<TaskId, Token>): map<TaskId, Grant> {
    map id | id in granted && id in db'.task ::
      Grant(granted[id], LiveTask(db'.task[id], RowsOf(db'.attempt, id)))
  }

  /** An envelope that can be taken over as it is: not in flight, not dead, its attempts
      numbered 1..n. Fresh submissions are. */
  predicate Admissible(t: Task) {
    && (t.status.Pending? || t.status.Succeeded?)
    && InOrder(t.attempts)
  }

  /** The calls an engine makes: submissions that can be taken over, and outcome writes of held
      claims numbered one past the history. */
  ghost predicate WellNumbered(db: Db, call: Call) {
    match call
    case Enqueue(id, task) => QueueOf(db, id).Some? || Admissible(task)
    case Reschedule(id, token, a, _) => Holds(db, id, token) ==> a.no == |History(RowsOf(db.attempt, id))| + 1
    case Complete(id, token, a, _) => Holds(db, id, token) ==> a.no == |History(RowsOf(db.attempt, id))| + 1
    case DeadLetter(id, token, a, _) => Holds(db, id, token) ==> a.no == |History(RowsOf(db.attempt, id))| + 1
    case _ => true
  }

  // ---------- attempt rows ----------

  lemma NumberedAppend(rows: Rows, a: Attempt)
    requires Numbered(rows) && a.no == |History(rows)| + 1
    ensures Numbered(rows[a.no := a])
    ensures History(rows[a.no := a]) == History(rows) + [a]
    ensures L.NormAll(History(rows[a.no := a])) == L.NormAll(History(rows)) + [L.Norm(a)]
  {
    hide History;
    HistoryAppend(rows, a.no, a);
  }

  /** MAX + 1 is one past a gap-free history. */
  lemma NextNo(rows: Rows)
    requires Numbered(rows)
    ensures MaxNo(rows) == |History(rows)|
  {
    if rows == map[] {
      assert NoKeys(rows) == {};
    } else {
      assert MaxNo(rows) in rows;
      assert |History(rows)| in rows;
    }
  }

  lemma NumberTaken(rows: Rows, no: int)
    requires Numbered(rows)
    ensures no in rows <==> 1 <= no <= |History(rows)|
  {
  }

  lemma OneRowMore(rows: Rows, a: Attempt)
    requires a.no !in rows
    ensures |History(rows[a.no := a])| == |History(rows)| + 1
  {
    hide History;
    var rows' := rows[a.no := a];
    assert NoKeys(rows') == NoKeys(rows) + {Key(a.no, "")};
    assert Key(a.no, "") !in NoKeys(rows);
  }

  lemma NumberedIffNext(rows: Rows, a: Attempt)
    requires Numbered(rows) && a.no !in rows
    ensures Numbered(rows[a.no := a]) <==> a.no == |History(rows)| + 1
  {
    hide History, NoKeys;
    OneRowMore(rows, a);
    if a.no == |History(rows)| + 1 {
      NumberedAppend(rows, a);
    }
    if Numbered(rows[a.no := a]) {
      assert |History(rows)| + 1 in rows[a.no := a];
    }
  }

  lemma EmptyNumbered()
    ensures Numbered(map[]) && History(map[]) == []
  {
    assert NoKeys(map[]) == {};
  }

  // ---------- fenced calls ----------

  lemma HoldsAbs(db: Db, id: TaskId, token: Token)
    requires Inv(db)
    ensures L.Holds(Abs(db), id, token) <==> Holds(db, id, token)
  {
  }

  /** Changing one live row and its attempts changes one abstract record. */
  lemma LiveWriteAbs(db: Db, id: TaskId, row: TaskRow, att': AttemptTable, r: L.Rec)
    requires Inv(db) && id in db.task
    requires forall other :: other != id ==> RowsOf(att', other) == RowsOf(db.attempt, other)
    requires r == LiveRec(row, RowsOf(att', id))
    ensures Abs(db.(task := db.task[id := row], attempt := att')) == Abs(db).(tasks := Abs(db).tasks[id := r])
  {
    var db' := db.(task := db.task[id := row], attempt := att');
    var after := Abs(db).tasks[id := r];
    assert Abs(db').tasks.Keys == after.Keys;
    forall other | other in after ensures Abs(db').tasks[other] == after[other] {
      if other != id {
        assert RowsOf(att', other) == RowsOf(db.attempt, other);
      }
    }
    assert Abs(db').tasks == after;
  }

  lemma LiveWriteInv(db: Db, id: TaskId, row: TaskRow, att': AttemptTable)
    requires Inv(db) && id in db.task
    requires GoodRow(row, db.issued) && Numbered(RowsOf(att', id))
    requires att'.Keys <= db.attempt.Keys + {id}
    requires forall other :: other != id ==> RowsOf(att', other) == RowsOf(db.attempt, other)
    ensures Inv(db.(task := db.task[id := row], attempt := att'))
  {
    hide History, Numbered, GoodRow, GoodDead, RowsOf;
  }

  lemma ExtendRefines(db: Db, id: TaskId, token: Token, lease: int, now: Time)
    requires Inv(db)
    ensures var next := AfterExtendLease(db, id, token, lease, now);
            && L.FencedStep(Abs(db), ExtendLease(id, token, lease, now), next.1, Abs(next.0))
            && Inv(next.0)
  {
    HoldsAbs(db, id, token);
    if Holds(db, id, token) {
      var row := db.task[id].(leaseAt := Some(now + lease));
      LiveWriteAbs(db, id, row, db.attempt, LiveRec(row, RowsOf(db.attempt, id)));
    }
  }

  /** The record after a spent claim, whatever became of the row. */
  lemma SpentRecords(row: TaskRow, rows: Rows, rows': Rows, a: Attempt)
    requires !row.status.Dead?
    requires L.NormAll(History(rows')) == L.NormAll(History(rows)) + [L.Norm(a)]
    ensures forall nextAt :: LiveRec(RescheduledRow(row, nextAt), rows') == L.Rescheduled(LiveRec(row, rows), a, nextAt)
    ensures LiveRec(CompletedRow(row), rows') == L.Completed(LiveRec(row, rows), a)
    ensures forall now :: DeadRec(DeadRow(row, a, now), rows') == L.Buried(LiveRec(row, rows), a, now)
  {
    hide History, L.NormAll;
  }

  /** A spent claim: the row moves on, the attempt is appended, the record follows. */
  lemma SpendRefines(db: Db, id: TaskId, token: Token, a: Attempt, row: TaskRow)
    requires Inv(db) && Holds(db, id, token) && a.no == |History(RowsOf(db.attempt, id))| + 1
    requires GoodRow(row, db.issued)
    ensures var next := SpendClaim(db, id, token, a, row);
            && next.1 == Done
            && Inv(next.0)
            && Abs(next.0) == Abs(db).(tasks := Abs(db).tasks[id := LiveRec(row, RowsOf(next.0.attempt, id))])
            && L.NormAll(History(RowsOf(next.0.attempt, id))) == L.NormAll(History(RowsOf(db.attempt, id))) + [L.Norm(a)]
  {
    hide History, LiveRec, GoodRow, GoodDead, L.NormAll, Abs, Numbered, Inv;
    var rows := RowsOf(db.attempt, id);
    RowFacts(db, id);
    NumberTaken(rows, a.no);
    NumberedAppend(rows, a);
    var att' := PgModel.Insert(db.attempt, id, a);
    LiveWriteAbs(db, id, row, att', LiveRec(row, RowsOf(att', id)));
    LiveWriteInv(db, id, row, att');
  }

  lemma RecordAt(db: Db, id: TaskId)
    requires id in db.task
    ensures id in Abs(db).tasks && Abs(db).tasks[id] == LiveRec(db.task[id], RowsOf(db.attempt, id))
  {
  }

  lemma RowFacts(db: Db, id: TaskId)
    requires Inv(db) && id in db.task
    ensures GoodRow(db.task[id], db.issued) && Numbered(RowsOf(db.attempt, id)) && id !in db.dlq
  {
    hide Numbered, GoodRow;
  }

  lemma RescheduleRefines(db: Db, id: TaskId, token: Token, a: Attempt, nextAt: Time)
    requires Inv(db) && WellNumbered(db, Reschedule(id, token, a, nextAt))
    ensures var next := AfterReschedule(db, id, token, a, nextAt);
            && L.FencedStep(Abs(db), Reschedule(id, token, a, nextAt), next.1, Abs(next.0))
            && Inv(next.0) && next.1 != Violation
  {
    hide History, Numbered, GoodDead, L.NormAll, LiveRec, DeadRec, Abs, Inv, L.Rescheduled, RowsOf, L.Holds;
    HoldsAbs(db, id, token);
    if Holds(db, id, token) {
      var row := db.task[id];
      RowFacts(db, id);
      SpendRefines(db, id, token, a, RescheduledRow(row, nextAt));
      SpentRecords(row, RowsOf(db.attempt, id), RowsOf(AfterReschedule(db, id, token, a, nextAt).0.attempt, id), a);
      RecordAt(db, id);
    }
  }

  lemma CompleteRefines(db: Db, id: TaskId, token: Token, a: Attempt, now: Time)
    requires Inv(db) && WellNumbered(db, Complete(id, token, a, now))
    ensures var next := AfterComplete(db, id, token, a);
            && L.FencedStep(Abs(db), Complete(id, token, a, now), next.1, Abs(next.0))
            && Inv(next.0) && next.1 != Violation
  {
    hide History, Numbered, GoodDead, L.NormAll, LiveRec, DeadRec, Abs, Inv, L.Completed, RowsOf, L.Holds;
    HoldsAbs(db, id, token);
    if Holds(db, id, token) {
      var row := db.task[id];
      RowFacts(db, id);
      SpendRefines(db, id, token, a, CompletedRow(row));
      SpentRecords(row, RowsOf(db.attempt, id), RowsOf(AfterComplete(db, id, token, a).0.attempt, id), a);
      RecordAt(db, id);
    }
  }

  lemma BurialRefines(db: Db, id: TaskId, token: Token, a: Attempt, now: Time)
    requires Inv(db) && WellNumbered(db, DeadLetter(id, token, a, now))
    ensures var next := AfterDeadLetter(db, id, token, a, now);
            && L.FencedStep(Abs(db), DeadLetter(id, token, a, now), next.1, Abs(next.0))
            && Inv(next.0) && next.1 != Violation
  {
    hide History, Numbered, Abs, Inv, L.Holds, L.Buried;
    HoldsAbs(db, id, token);
    if Holds(db, id, token) {
      var rows := RowsOf(db.attempt, id);
      RowFacts(db, id);
      RecordAt(db, id);
      NumberTaken(rows, a.no);
      NumberedAppend(rows, a);
      BurialInv(db, id, token, a, now);
      BurialMoves(db, id, token, a, now);
    }
  }

  lemma BuriedRowGood(row: TaskRow, rows: Rows, a: Attempt, now: Time)
    requires History(rows[a.no := a]) == History(rows) + [a]
    ensures GoodDead(DeadRow(row, a, now), rows[a.no := a])
  {
    hide History;
  }

  lemma BurialInv(db: Db, id: TaskId, token: Token, a: Attempt, now: Time)
    requires Inv(db) && Holds(db, id, token) && !Taken(db, id, a.no)
    requires Numbered(RowsOf(db.attempt, id)[a.no := a])
    requires History(RowsOf(db.attempt, id)[a.no := a]) == History(RowsOf(db.attempt, id)) + [a]
    ensures AfterDeadLetter(db, id, token, a, now).1 == Done && Inv(AfterDeadLetter(db, id, token, a, now).0)
  {
    hide History, Numbered, GoodRow, GoodDead, RowsOf, DeadRow, Inv;
    RowFacts(db, id);
    BuriedRowGood(db.task[id], RowsOf(db.attempt, id), a, now);
    MoveInv(db, id, DeadRow(db.task[id], a, now), a);
  }

  lemma MoveInv(db: Db, id: TaskId, dead: DlqRow, a: Attempt)
    requires Inv(db) && id in db.task
    requires Numbered(RowsOf(db.attempt, id)[a.no := a]) && GoodDead(dead, RowsOf(db.attempt, id)[a.no := a])
    ensures Inv(Db(db.task - {id}, db.dlq[id := dead], PgModel.Insert(db.attempt, id, a), db.issued))
  {
    hide History, Numbered, GoodRow, GoodDead, RowsOf;
    RowsAfterInsert(db.attempt, id, a);
  }

  lemma RowsAfterInsert(att: AttemptTable, id: TaskId, a: Attempt)
    ensures RowsOf(PgModel.Insert(att, id, a), id) == RowsOf(att, id)[a.no := a]
    ensures forall other :: other != id ==> RowsOf(PgModel.Insert(att, id, a), other) == RowsOf(att, other)
  {
  }

  /** The move between the tables: the same record, now dead. */
  lemma BurialMoves(db: Db, id: TaskId, token: Token, a: Attempt, now: Time)
    requires Inv(db) && Holds(db, id, token) && !Taken(db, id, a.no)
    requires L.NormAll(History(RowsOf(db.attempt, id)[a.no := a])) == L.NormAll(History(RowsOf(db.attempt, id))) + [L.Norm(a)]
    ensures var next := AfterDeadLetter(db, id, token, a, now);
            && next.1 == Done
            && Abs(next.0) == Abs(db).(tasks := Abs(db).tasks[id := L.Buried(Abs(db).tasks[id], a, now)])
  {
    hide History, L.NormAll, Numbered, GoodDead, LiveRec, DeadRec, L.Buried, Inv, RowsOf, DeadRow;
    var db' := AfterDeadLetter(db, id, token, a, now).0;
    RowFacts(db, id);
    RowsAfterInsert(db.attempt, id, a);
    SpentRecords(db.task[id], RowsOf(db.attempt, id), RowsOf(db'.attempt, id), a);
    assert AbsRec(db', id) == L.Buried(AbsRec(db, id), a, now);
    OneRecordMoved(db, db', id);
  }

  /** Two databases that differ in one task only: so do their abstractions. */
  lemma OneRecordMoved(db: Db, db': Db, id: TaskId)
    requires id in db.task || id in db.dlq
    requires db'.task.Keys + db'.dlq.Keys == db.task.Keys + db.dlq.Keys && db'.issued == db.issued
    requires forall other :: other in db.task.Keys + db.dlq.Keys && other != id ==> AbsRec(db', other) == AbsRec(db, other)
    ensures Abs(db') == Abs(db).(tasks := Abs(db).tasks[id := AbsRec(db', id)])
  {
    hide AbsRec;
    assert Abs(db').tasks == Abs(db).tasks[id := AbsRec(db', id)];
  }

  /** Any outcome write of an honoured claim, whatever its number: refused, changing nothing,
      exactly for the numbers 1..n of the history, and leaving the history numbered exactly for
      n + 1. */
  lemma OutcomeNumbers(db: Db, call: Call, next: (Db, Reply))
    requires Inv(db) && Step(db, call, next.1, next.0)
    requires call.Reschedule? || call.Complete? || call.DeadLetter?
    requires Holds(db, call.id, call.token)
    ensures var n := |History(RowsOf(db.attempt, call.id))|;
            && (next.1 == Violation <==> 1 <= call.attempt.no <= n)
            && (next.1 == Violation ==> next.0 == db)
            && (next.1 != Violation ==> (Numbered(RowsOf(next.0.attempt, call.id)) <==> call.attempt.no == n + 1))
  {
    hide Inv, Numbered, History;
    var rows := RowsOf(db.attempt, call.id);
    RowFacts(db, call.id);
    NumberTaken(rows, call.attempt.no);
    RowsAfterInsert(db.attempt, call.id, call.attempt);
    if call.attempt.no !in rows {
      NumberedIffNext(rows, call.attempt);
    }
  }

  // ---------- admission ----------

  predicate Ascending(attempts: seq<Attempt>) {
    forall i, j :: 0 <= i < j < |attempts| ==> attempts[i].no < attempts[j].no
  }

  predicate HasNumber(attempts: seq<Attempt>, no: int) { exists i :: 0 <= i < |attempts| && attempts[i].no == no }

  /** The numbers are 1..n, in whatever order. */
  ghost predicate NumbersExactly(attempts: seq<Attempt>) {
    forall no :: HasNumber(attempts, no) <==> 1 <= no <= |attempts|
  }

  /** Any envelope at all. A known id, or an envelope that is not dead and lists its attempts in
      ascending order, is admitted as the contract says; an admitted envelope keeps the
      invariant exactly when it is not in flight and its attempts carry the numbers 1..n. */
  lemma EnqueueRefines(db: Db, id: TaskId, task: Task)
    requires Inv(db)
    ensures var next := AfterEnqueue(db, id, task);
            && (QueueOf(db, id).Some? || (!task.status.Dead? && Ascending(task.attempts)) ==>
                  next.1 != Violation && L.EnqueueStep(Abs(db), id, task, next.1, Abs(next.0)))
            && (next.1 != Violation ==>
                  (Inv(next.0) <==> QueueOf(db, id).Some? || (!task.status.InFlight? && NumbersExactly(task.attempts))))
  {
    hide History, Numbered, GoodDead, Inv, Abs, L.NormTask, InsertAll, Ascending, NumbersExactly, HistoryAdded;
    AbsAt(db, id);
    if QueueOf(db, id).None? {
      NoRows(db, id);
      InsertCounts(db.attempt, id, task.attempts);
      if !task.status.Dead? && Ascending(task.attempts) {
        InsertPrefix(db.attempt, id, task.attempts, |task.attempts|);
        assert task.attempts[..|task.attempts|] == task.attempts;
        AdmissionAbs(db, id, task, InsertAll(db.attempt, id, task.attempts).value);
      }
      if !task.status.Dead? && InsertAll(db.attempt, id, task.attempts).Some? {
        AdmissionInv(db, id, task, InsertAll(db.attempt, id, task.attempts).value);
      }
    }
  }

  /** In particular an envelope that can be taken over as it is. */
  lemma AdmissibleRefines(db: Db, id: TaskId, task: Task)
    requires Inv(db) && (QueueOf(db, id).Some? || Admissible(task))
    ensures var next := AfterEnqueue(db, id, task);
            && L.EnqueueStep(Abs(db), id, task, next.1, Abs(next.0))
            && Inv(next.0) && next.1 != Violation
  {
    hide Inv, Abs, L.EnqueueStep, AfterEnqueue, NumbersExactly;
    EnqueueRefines(db, id, task);
    if Admissible(task) {
      InOrderIsExact(task.attempts);
    }
  }

  lemma InOrderIsExact(attempts: seq<Attempt>)
    requires InOrder(attempts)
    ensures Ascending(attempts) && NumbersExactly(attempts)
  {
    forall no | 1 <= no <= |attempts| ensures HasNumber(attempts, no) { assert attempts[no - 1].no == no; }
  }

  lemma NoRows(db: Db, id: TaskId)
    requires Inv(db) && id !in db.task && id !in db.dlq
    ensures RowsOf(db.attempt, id) == map[]
  {
    hide Numbered, GoodDead, GoodRow;
  }

  /** The attempt table with the history of one more task. */
  ghost predicate HistoryAdded(att: AttemptTable, id: TaskId, attempts: seq<Attempt>, att': AttemptTable) {
    && (forall other :: other != id ==> RowsOf(att', other) == RowsOf(att, other))
    && History(RowsOf(att', id)) == attempts
    && (forall no :: no in RowsOf(att', id) ==> HasNumber(attempts, no))
  }

  lemma {:induction false} InsertPrefix(att: AttemptTable, id: TaskId, attempts: seq<Attempt>, n: nat)
    requires RowsOf(att, id) == map[] && n <= |attempts| && Ascending(attempts)
    ensures InsertAll(att, id, attempts[..n]).Some?
    ensures HistoryAdded(att, id, attempts[..n], InsertAll(att, id, attempts[..n]).value)
    decreases n
  {
    hide Numbered, History, NoKeys, HistoryAdded, HasNumber;
    if n == 0 {
      NothingAdded(att, id);
    } else {
      InsertPrefix(att, id, attempts, n - 1);
      assert attempts[..n][..n - 1] == attempts[..n - 1] && attempts[..n] == attempts[..n - 1] + [attempts[n - 1]];
      OneMoreAdded(att, id, attempts[..n - 1], InsertAll(att, id, attempts[..n - 1]).value, attempts[n - 1]);
    }
  }

  lemma NothingAdded(att: AttemptTable, id: TaskId)
    requires RowsOf(att, id) == map[]
    ensures HistoryAdded(att, id, [], att)
  {
    hide Numbered, History;
    EmptyNumbered();
  }

  lemma OneMoreAdded(att: AttemptTable, id: TaskId, attempts: seq<Attempt>, mid: AttemptTable, a: Attempt)
    requires HistoryAdded(att, id, attempts, mid) && Ascending(attempts + [a])
    ensures a.no !in RowsOf(mid, id) && HistoryAdded(att, id, attempts + [a], PgModel.Insert(mid, id, a))
  {
    hide History, NoKeys;
    forall no | no in RowsOf(mid, id) ensures no < a.no {
      var i :| 0 <= i < |attempts| && attempts[i].no == no;
      assert (attempts + [a])[i].no < (attempts + [a])[|attempts|].no;
    }
    HistoryAppend(RowsOf(mid, id), a.no, a);
    RowsAfterInsert(mid, id, a);
    forall no | no in RowsOf(mid, id)[a.no := a] ensures HasNumber(attempts + [a], no) {
      if no == a.no {
        assert (attempts + [a])[|attempts|].no == no;
      } else {
        var i :| 0 <= i < |attempts| && attempts[i].no == no;
        assert (attempts + [a])[i].no == no;
      }
    }
  }

  /** What inserting a history leaves: the other tasks' rows, and one row per attempt under its
      own number. It is refused exactly when a number repeats. */
  lemma {:induction false} InsertCounts(att: AttemptTable, id: TaskId, attempts: seq<Attempt>)
    requires RowsOf(att, id) == map[]
    ensures InsertAll(att, id, attempts).None? <==> RepeatsNumber(attempts)
    ensures InsertAll(att, id, attempts).Some? ==> RowsCounted(att, id, attempts, InsertAll(att, id, attempts).value)
    decreases |attempts|
  {
    hide RowsCounted, RowsOf;
    if attempts == [] {
      NothingCounted(att, id);
    } else {
      var n := |attempts| - 1;
      var init, last := attempts[..n], attempts[n];
      assert attempts == init + [last];
      InsertCounts(att, id, init);
      RepeatsMore(init, last);
      if InsertAll(att, id, init).Some? {
        OneMoreCounted(att, id, init, InsertAll(att, id, init).value, last);
      }
    }
  }

  ghost predicate RowsCounted(att: AttemptTable, id: TaskId, attempts: seq<Attempt>, att': AttemptTable) {
    && att'.Keys <= att.Keys + {id}
    && (forall other :: other != id ==> RowsOf(att', other) == RowsOf(att, other))
    && |History(RowsOf(att', id))| == |attempts|
    && (forall no :: no in RowsOf(att', id) <==> HasNumber(attempts, no))
    && (forall no :: no in RowsOf(att', id) ==> RowsOf(att', id)[no].no == no)
  }

  lemma NothingCounted(att: AttemptTable, id: TaskId)
    requires RowsOf(att, id) == map[]
    ensures RowsCounted(att, id, [], att)
  {
    hide History, Numbered;
    EmptyNumbered();
  }

  lemma RepeatsMore(init: seq<Attempt>, last: Attempt)
    ensures RepeatsNumber(init + [last]) <==> RepeatsNumber(init) || HasNumber(init, last.no)
  {
    var all := init + [last];
    assert forall i :: 0 <= i < |init| ==> all[i] == init[i];
    if RepeatsNumber(init) {
      var i, j :| 0 <= i < j < |init| && init[i].no == init[j].no;
      assert all[i].no == all[j].no;
    }
    if HasNumber(init, last.no) {
      var i :| 0 <= i < |init| && init[i].no == last.no;
      assert all[i].no == all[|init|].no;
    }
  }

  lemma OneMoreCounted(att: AttemptTable, id: TaskId, init: seq<Attempt>, mid: AttemptTable, a: Attempt)
    requires RowsCounted(att, id, init, mid)
    ensures a.no in RowsOf(mid, id) <==> HasNumber(init, a.no)
    ensures a.no !in RowsOf(mid, id) ==> RowsCounted(att, id, init + [a], PgModel.Insert(mid, id, a))
  {
    hide History, HasNumber, NoKeys;
    if a.no !in RowsOf(mid, id) {
      OneRowMore(RowsOf(mid, id), a);
      RowsAfterInsert(mid, id, a);
      forall no ensures HasNumber(init + [a], no) <==> HasNumber(init, no) || no == a.no { HasMore(init, a, no); }
    }
  }

  lemma HasMore(init: seq<Attempt>, a: Attempt, no: int)
    ensures HasNumber(init + [a], no) <==> HasNumber(init, no) || no == a.no
  {
    var all := init + [a];
    assert all[|init|] == a && forall i :: 0 <= i < |init| ==> all[i] == init[i];
  }

  lemma CountedNumbers(att: AttemptTable, id: TaskId, attempts: seq<Attempt>, att': AttemptTable)
    requires RowsCounted(att, id, attempts, att')
    ensures Numbered(RowsOf(att', id)) <==> NumbersExactly(attempts)
  {
    hide History, HasNumber, RowsOf;
  }

  /** Whatever the envelope: it is refused exactly when it is dead or repeats an attempt number. */
  lemma EnqueueRefused(db: Db, id: TaskId, task: Task)
    requires Inv(db)
    ensures AfterEnqueue(db, id, task).1 == Violation <==>
            QueueOf(db, id).None? && (task.status.Dead? || RepeatsNumber(task.attempts))
    ensures AfterEnqueue(db, id, task).1 == Violation ==> AfterEnqueue(db, id, task).0 == db
  {
    hide Inv, RepeatsNumber, InsertAll, RowsCounted;
    if QueueOf(db, id).None? {
      NoRows(db, id);
      InsertCounts(db.attempt, id, task.attempts);
    }
  }

  lemma AbsAt(db: Db, id: TaskId)
    ensures Abs(db).tasks.Keys == db.task.Keys + db.dlq.Keys
    ensures id in db.task ==> Abs(db).tasks[id] == LiveRec(db.task[id], RowsOf(db.attempt, id))
    ensures id !in db.task && id in db.dlq ==> Abs(db).tasks[id] == DeadRec(db.dlq[id], RowsOf(db.attempt, id))
    ensures id in Abs(db).tasks ==> QueueOf(db, id) == Some(Abs(db).tasks[id].task.queue)
  {
    hide History;
  }

  lemma AdmissionInv(db: Db, id: TaskId, task: Task, att: AttemptTable)
    requires Inv(db) && id !in db.task && id !in db.dlq && !task.status.Dead?
    requires RowsCounted(db.attempt, id, task.attempts, att)
    ensures Inv(db.(task := db.task[id := RowOf(task)], attempt := att)) <==>
            !task.status.InFlight? && NumbersExactly(task.attempts)
  {
    hide History, Numbered, GoodDead, RowsOf, NumbersExactly, HasNumber;
    CountedNumbers(db.attempt, id, task.attempts, att);
    var db' := db.(task := db.task[id := RowOf(task)], attempt := att);
    assert GoodRow(db'.task[id], db'.issued) <==> !task.status.InFlight?;
  }

  lemma AdmissionAbs(db: Db, id: TaskId, task: Task, att: AttemptTable)
    requires id !in db.task && id !in db.dlq && HistoryAdded(db.attempt, id, task.attempts, att)
    ensures Abs(db.(task := db.task[id := RowOf(task)], attempt := att)) ==
              Abs(db).(tasks := Abs(db).tasks[id := L.Rec(L.NormTask(task), "", ZERO_TIME)])
  {
    hide History, DeadRec, LiveRec, RowsOf, Numbered, L.NormAll, L.NormTask, HistoryAdded;
    var db' := db.(task := db.task[id := RowOf(task)], attempt := att);
    AdmittedRecord(db.attempt, id, task, att);
    OtherRows(db.attempt, id, task.attempts, att);
    assert Abs(db').tasks == Abs(db).tasks[id := L.Rec(L.NormTask(task), "", ZERO_TIME)];
  }

  lemma AdmittedRecord(att: AttemptTable, id: TaskId, task: Task, att': AttemptTable)
    requires HistoryAdded(att, id, task.attempts, att')
    ensures LiveRec(RowOf(task), RowsOf(att', id)) == L.Rec(L.NormTask(task), "", ZERO_TIME)
  {
    hide History, RowsOf, Numbered, L.NormAll;
  }

  lemma OtherRows(att: AttemptTable, id: TaskId, attempts: seq<Attempt>, att': AttemptTable)
    requires HistoryAdded(att, id, attempts, att')
    ensures forall other :: other != id ==> RowsOf(att', other) == RowsOf(att, other)
  {
    hide History, RowsOf, Numbered;
  }

  // ---------- reading back ----------

  /** What a read returns is the contract's task, for live and dead rows alike. */
  lemma FoundAbs(db: Db, id: TaskId)
    ensures Found(db, id).Some? <==> id in Abs(db).tasks
    ensures Found(db, id).Some? ==> L.NormTask(Found(db, id).value) == Abs(db).tasks[id].task
  {
    hide History, L.NormAll, RowsOf;
  }

  /** An envelope reassembled for a claim is the one the contract grants. */
  lemma EnvelopeAbs(db: Db, granted: map<TaskId, Token>, id: TaskId)
    requires id in db.task && id in granted
    ensures var env := LiveEnvelope(db.task[id], History(RowsOf(db.attempt, id)));
            && id in GrantsOf(db, granted) && id in Abs(db).tasks
            && L.NormTask(env) == GrantsOf(db, granted)[id].task == Abs(db).tasks[id].task
  {
    hide History, L.NormAll, RowsOf;
  }

  /** An admitted task is read back as it was submitted, attempt numbers included. */
  lemma EnqueueThenGet(db: Db, id: TaskId, task: Task)
    requires Inv(db) && QueueOf(db, id).None? && Admissible(task)
    ensures Found(AfterEnqueue(db, id, task).0, id) == Some(task)
  {
    hide Inv, History, InsertAll, Ascending, NumbersExactly;
    NoRows(db, id);
    InOrderIsExact(task.attempts);
    InsertPrefix(db.attempt, id, task.attempts, |task.attempts|);
    assert task.attempts[..|task.attempts|] == task.attempts;
  }

  lemma {:induction false} FirstNumbers(n: nat) returns (keys: seq<Key>)
    ensures |keys| == n && forall i :: 0 <= i < n ==> keys[i] == Key(i + 1, "")
    ensures Sorted(keys)
    decreases n
  {
    if n == 0 {
      keys := [];
    } else {
      var init := FirstNumbers(n - 1);
      keys := init + [Key(n, "")];
    }
  }

  /** Rows numbered 1..n are read back in that order. */
  lemma HistoryInOrder(rows: Rows)
    requires Numbered(rows)
    ensures InOrder(History(rows))
  {
    hide Listing;
    ListedNos(rows);
    var n := |History(rows)|;
    var keys := FirstNumbers(n);
    forall k ensures k in keys <==> k in NoKeys(rows) {
      if k in NoKeys(rows) {
        assert keys[k.at - 1] == k;
      }
    }
    assert Elements(keys) == NoKeys(rows);
    ListingUnique(keys, Listing(NoKeys(rows)), NoKeys(rows));
  }

  // ---------- dead letters ----------

  /** The pushed-down filter on the denormalised columns is the filter on the record. */
  lemma MatchesAbs(row: DlqRow, rows: Rows, f: DlqFilter)
    requires GoodDead(row, rows)
    ensures Matches(row, f) <==> MatchesFilter(DeadTask(row, rows), row.deadAt, f)
  {
    hide History;
    L.NormKeepsErrorType(History(rows));
  }

  lemma SelectionAbs(db: Db, queue: string, sel: Selector)
    requires Inv(db)
    ensures L.Selection(Abs(db), queue, sel) == Selection(db, queue, sel)
  {
    hide History, Numbered, MatchesFilter, Matches, GoodDead;
    forall id | id in db.dlq && sel.filter.Some?
      ensures Matches(db.dlq[id], sel.filter.value)
              <==> MatchesFilter(DeadTask(db.dlq[id], RowsOf(db.attempt, id)), db.dlq[id].deadAt, sel.filter.value)
    {
      MatchesAbs(db.dlq[id], RowsOf(db.attempt, id), sel.filter.value);
    }
  }

  lemma RevivedRecord(row: DlqRow, rows: Rows, now: Time)
    ensures LiveRec(RedrivenRow(row, now), rows) == L.Redriven(DeadRec(row, rows), DeadRec(row, rows).task.redriveCount + 1, now)
    ensures LiveRec(RedrivenRow(row, now), rows).task.redriveCount == DeadRec(row, rows).task.redriveCount + 1
  {
    hide History;
  }

  lemma RedriveInv(db: Db, moved: set<TaskId>, now: Time, db': Db)
    requires Inv(db) && moved <= db.dlq.Keys
    requires db' == db.(task := db.task + MovedRows(db, moved, now), dlq := db.dlq - moved)
    ensures Inv(db')
  {
    hide History, Numbered, GoodDead, RowsOf;
  }

  lemma RedriveRefines(db: Db, queue: string, sel: Selector, now: Time)
    requires Inv(db)
    ensures var next := AfterRedrive(db, queue, sel, now);
            && L.RedriveStep(Abs(db), queue, sel, now, next.1, Abs(next.0))
            && Inv(next.0) && next.1 != Violation
  {
    hide MovedRows, L.RedriveStep, Numbered, GoodRow, GoodDead, Abs, Selects;
    var moved := Selection(db, queue, sel);
    assert moved * db.task.Keys == {};
    var db' := AfterRedrive(db, queue, sel, now).0;
    SelectionAbs(db, queue, sel);
    RedriveInv(db, moved, now, db');
    RedriveMoves(db, moved, queue, sel, now, db');
  }

  lemma RedriveMoves(db: Db, moved: set<TaskId>, queue: string, sel: Selector, now: Time, db': Db)
    requires Inv(db) && moved <= db.dlq.Keys && moved == L.Selection(Abs(db), queue, sel)
    requires db' == db.(task := db.task + MovedRows(db, moved, now), dlq := db.dlq - moved)
    ensures L.RedriveStep(Abs(db), queue, sel, now, Count(|moved|), Abs(db'))
  {
    hide History, Numbered, GoodDead, LiveRec, DeadRec, RowsOf, Inv, L.Selection, AtMostOnce, Abs, RedrivenRow, L.Redriven, QueueOf;
    RedriveKeys(db, moved, now, db');
    RedriveMinted(db, db');
    forall id | id in db.task || id in db.dlq
      ensures id in Abs(db).tasks && id in Abs(db').tasks
      ensures id !in moved ==> Abs(db').tasks[id] == Abs(db).tasks[id]
      ensures id in moved ==>
                && Abs(db').tasks[id] == L.Redriven(Abs(db).tasks[id], Abs(db).tasks[id].task.redriveCount + 1, now)
                && Abs(db').tasks[id].task.redriveCount == Abs(db).tasks[id].task.redriveCount + 1
    {
      AbsAt(db, id);
      AbsAt(db', id);
      if id in moved {
        RevivedRecord(db.dlq[id], RowsOf(db.attempt, id), now);
      }
    }
    AbsAt(db, "");
    AbsAt(db', "");
  }

  lemma RedriveMinted(db: Db, db': Db)
    requires db'.issued == db.issued
    ensures Abs(db').minted == Abs(db).minted
  {
  }

  lemma RedriveKeys(db: Db, moved: set<TaskId>, now: Time, db': Db)
    requires Inv(db) && moved <= db.dlq.Keys
    requires db' == db.(task := db.task + MovedRows(db, moved, now), dlq := db.dlq - moved)
    ensures db'.task.Keys + db'.dlq.Keys == db.task.Keys + db.dlq.Keys
    ensures forall id :: id in moved ==> id !in db.task && id in db'.task && db'.task[id] == RedrivenRow(db.dlq[id], now)
    ensures forall id :: id in db.task ==> id !in moved && id in db'.task && db'.task[id] == db.task[id]
    ensures forall id :: id in db.dlq && id !in moved ==> id !in db'.task && id in db'.dlq && db'.dlq[id] == db.dlq[id]
  {
    hide History, Numbered, GoodDead, GoodRow, RowsOf, RedrivenRow;
  }

  // ---------- removal ----------

  /** Rows and attempts go together; what stays is untouched. */
  lemma RemovalInv(db: Db, gone: set<TaskId>, db': Db)
    requires Inv(db)
    requires db' == Db(db.task - gone, db.dlq - gone, db.attempt - gone, db.issued)
    ensures Inv(db')
  {
    hide History, Numbered, GoodDead, GoodRow;
    forall id | id !in gone ensures RowsOf(db'.attempt, id) == RowsOf(db.attempt, id) { }
  }

  lemma RemovalAbs(db: Db, gone: set<TaskId>, db': Db)
    requires db' == Db(db.task - gone, db.dlq - gone, db.attempt - gone, db.issued)
    ensures Abs(db') == Abs(db).(tasks := Abs(db).tasks - gone)
  {
    hide LiveRec, DeadRec;
    forall id | id !in gone ensures RowsOf(db'.attempt, id) == RowsOf(db.attempt, id) { }
    assert Abs(db').tasks == Abs(db).tasks - gone;
  }

  lemma PurgeRefines(db: Db, queue: string, sel: Selector)
    requires Inv(db)
    ensures var next := AfterPurge(db, queue, sel);
            && L.PurgeStep(Abs(db), queue, sel, next.1, Abs(next.0))
            && Inv(next.0)
  {
    hide Abs, AtMostOnce, Numbered, GoodDead, GoodRow, L.Selection;
    var gone := Selection(db, queue, sel);
    var db' := AfterPurge(db, queue, sel).0;
    assert db.task - gone == db.task;
    assert db' == Db(db.task - gone, db.dlq - gone, db.attempt - gone, db.issued);
    SelectionAbs(db, queue, sel);
    RemovalInv(db, gone, db');
    RemovalAbs(db, gone, db');
  }

  lemma SweepRefines(db: Db, queue: string, olderThan: Time)
    requires Inv(db)
    ensures var next := AfterPurgeSucceeded(db, queue, olderThan);
            && L.SweepStep(Abs(db), queue, next.1, Abs(next.0))
            && Inv(next.0)
  {
    hide Numbered, GoodDead, GoodRow, History, FinishedBefore, LiveRec, DeadRec, Abs, RowsOf, QueueOf, Inv, Aged, L.SweepStep;
    var gone := Aged(db, queue, olderThan);
    AgedRows(db, queue, olderThan);
    var db' := AfterPurgeSucceeded(db, queue, olderThan).0;
    LiveRowsOnly(db, gone);
    RemovalInv(db, gone, db');
    RemovalAbs(db, gone, db');
    AbsAt(db, "");
    forall id | id in gone ensures Abs(db).tasks[id].task.queue == queue && Abs(db).tasks[id].task.status.Succeeded? {
      AbsAt(db, id);
      LiveFields(db.task[id], RowsOf(db.attempt, id));
    }
    SweepOf(Abs(db), queue, gone);
  }

  lemma SweepOf(s: L.Store, queue: string, gone: set<TaskId>)
    requires gone <= s.tasks.Keys
    requires forall id :: id in gone ==> s.tasks[id].task.queue == queue && s.tasks[id].task.status.Succeeded?
    ensures L.SweepStep(s, queue, Count(|gone|), s.(tasks := s.tasks - gone))
  {
    SweepCounts(s.tasks, gone);
  }

  lemma AgedRows(db: Db, queue: string, olderThan: Time)
    ensures forall id :: id in Aged(db, queue, olderThan) ==>
              id in db.task && db.task[id].queue == queue && db.task[id].status.Succeeded?
  {
  }

  lemma LiveRowsOnly(db: Db, gone: set<TaskId>)
    requires Inv(db) && gone <= db.task.Keys
    ensures db.dlq - gone == db.dlq
  {
    hide Numbered, GoodDead, GoodRow;
  }

  lemma LiveFields(row: TaskRow, rows: Rows)
    ensures LiveRec(row, rows).task.queue == row.queue && LiveRec(row, rows).task.status == row.status
  {
  }

  lemma SweepCounts(tasks: map<TaskId, L.Rec>, gone: set<TaskId>)
    requires gone <= tasks.Keys
    ensures |tasks - gone| == |tasks| - |gone|
  {
    assert (tasks - gone).Keys == tasks.Keys - gone;
  }
}
