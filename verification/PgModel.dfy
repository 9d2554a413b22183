/** The PostgreSQL store as tables: live tasks, dead-lettered tasks, and one attempt row per
    (task_id, attempt_no). Each call is one transaction; a refused constraint rolls it back. */
module PgModel {
  import opened Spi
  import opened Ordering

  datatype TaskRow = TaskRow(
    queue: string,
    handlerRef: string,
    body: string,
    createdAt: Time,
    status: Status,
    attemptCount: int,
    redriveCount: int,
    nextAt: Option<Time>,
    leaseAt: Option<Time>,
    claimToken: Option<Token>)

  // The columns that are NULL or constant in every dead-letter row are left out.
  datatype DlqRow = DlqRow(
    queue: string,
    handlerRef: string,
    body: string,
    createdAt: Time,
    attemptCount: int,
    redriveCount: int,
    deadAt: Time,
    errorType: Option<string>)

  /** The attempt rows of one task by attempt_no: UNIQUE(task_id, attempt_no). */
  type Rows = map<int, Attempt>

  type AttemptTable = map<TaskId, Rows>

  /** `issued` is not a table: it is every claim token generated so far. */
  datatype Db = Db(task: map<TaskId, TaskRow>, dlq: map<TaskId, DlqRow>, attempt: AttemptTable, issued: set<Token>)

  // ---------- attempt rows ----------

  function RowsOf(att: AttemptTable, id: TaskId): Rows { if id in att then att[id] else map[] }

  /** The attempt numbers of a task, as sortable keys. */
  function NoKeys(rows: Rows): set<Key> { set n | n in rows :: Key(n, "") }

  /** The rows at the listed numbers. */
  function AtNos(rows: Rows, nos: seq<Key>): (h: seq<Attempt>)
    requires forall k :: k in nos ==> k.at in rows
    ensures |h| == |nos| && forall i :: 0 <= i < |nos| ==> h[i] == rows[nos[i].at]
  {
    seq(|nos|, i requires 0 <= i < |nos| => assert nos[i] in nos; rows[nos[i].at])
  }

  lemma ListedNos(rows: Rows)
    ensures forall k :: k in Listing(NoKeys(rows)) ==> k.at in rows
  {
    hide Listing;
    forall k | k in Listing(NoKeys(rows)) ensures k in Elements(Listing(NoKeys(rows))) { }
  }

  /** SELECT ... WHERE task_id = id ORDER BY attempt_no. */
  ghost function History(rows: Rows): (h: seq<Attempt>)
    ensures |h| == |NoKeys(rows)|
  {
    ListedNos(rows);
    AtNos(rows, Listing(NoKeys(rows)))
  }

  /** COALESCE(MAX(attempt_no), 0). */
  ghost function MaxNo(rows: Rows): (n: int)
    ensures forall k :: k in rows ==> k <= n
    ensures if rows == map[] then n == 0 else n in rows
  {
    var nos := Listing(NoKeys(rows));
    LastIsGreatest(rows, nos);
    if nos == [] then 0 else nos[|nos| - 1].at
  }

  lemma LastIsGreatest(rows: Rows, nos: seq<Key>)
    requires Lists(nos, NoKeys(rows))
    ensures nos == [] <==> rows == map[]
    ensures nos != [] ==>
              nos[|nos| - 1].at in rows && forall k :: k in rows ==> k <= nos[|nos| - 1].at
  {
    forall k | k in rows ensures nos != [] && k <= nos[|nos| - 1].at {
      assert Key(k, "") in Elements(nos);
      var i :| 0 <= i < |nos| && nos[i] == Key(k, "");
      assert i < |nos| - 1 ==> Less(nos[i], nos[|nos| - 1]);
    }
    if nos != [] {
      assert nos[|nos| - 1] in Elements(nos);
    }
  }

  lemma LessByNumber(a: Key, b: Key)
    requires a.at < b.at
    ensures Less(a, b)
  {
  }

  /** A row numbered past all others is the new end of the history. */
  lemma HistoryAppend(rows: Rows, n: int, a: Attempt)
    requires forall k :: k in rows ==> k < n
    ensures History(rows[n := a]) == History(rows) + [a]
  {
    hide Listing, Less;
    var rows' := rows[n := a];
    ListedNos(rows);
    ListedNos(rows');
    assert NoKeys(rows') == NoKeys(rows) + {Key(n, "")};
    forall x | x in NoKeys(rows) ensures Less(x, Key(n, "")) { LessByNumber(x, Key(n, "")); }
    ListingAppend(NoKeys(rows), Key(n, ""));
    AtNosAppend(rows, Listing(NoKeys(rows)), n, a);
  }

  lemma AtNosAppend(rows: Rows, nos: seq<Key>, n: int, a: Attempt)
    requires n !in rows && forall k :: k in nos ==> k.at in rows
    ensures AtNos(rows[n := a], nos + [Key(n, "")]) == AtNos(rows, nos) + [a]
  {
    forall i | 0 <= i < |nos| ensures nos[i].at in rows && nos[i].at != n { assert nos[i] in nos; }
  }

  // ---------- fenced writes ----------

  predicate Holds(db: Db, id: TaskId, token: Token) {
    && id in db.task
    && db.task[id].status.InFlight?
    && db.task[id].claimToken == Some(token)
  }

  function Insert(att: AttemptTable, id: TaskId, a: Attempt): AttemptTable {
    att[id := RowsOf(att, id)[a.no := a]]
  }

  predicate Taken(db: Db, id: TaskId, no: int) { no in RowsOf(db.attempt, id) }

  function AfterExtendLease(db: Db, id: TaskId, token: Token, lease: int, now: Time): (Db, Reply) {
    if !Holds(db, id, token) then (db, StaleClaim)
    else (db.(task := db.task[id := db.task[id].(leaseAt := Some(now + lease))]), Done)
  }

  function RescheduledRow(row: TaskRow, nextAt: Time): TaskRow {
    row.(status := Pending, nextAt := Some(nextAt), leaseAt := None, claimToken := None,
         attemptCount := row.attemptCount + 1)
  }

  function CompletedRow(row: TaskRow): TaskRow {
    row.(status := Succeeded, nextAt := None, leaseAt := None, claimToken := None,
         attemptCount := row.attemptCount + 1)
  }

  /** The state change and the attempt row commit together or not at all. */
  function SpendClaim(db: Db, id: TaskId, token: Token, a: Attempt, row: TaskRow): (Db, Reply) {
    if !Holds(db, id, token) then (db, StaleClaim)
    else if Taken(db, id, a.no) then (db, Violation)
    else (db.(task := db.task[id := row], attempt := Insert(db.attempt, id, a)), Done)
  }

  function AfterReschedule(db: Db, id: TaskId, token: Token, a: Attempt, nextAt: Time): (Db, Reply) {
    if id !in db.task then (db, StaleClaim)
    else SpendClaim(db, id, token, a, RescheduledRow(db.task[id], nextAt))
  }

  function AfterComplete(db: Db, id: TaskId, token: Token, a: Attempt): (Db, Reply) {
    if id !in db.task then (db, StaleClaim)
    else SpendClaim(db, id, token, a, CompletedRow(db.task[id]))
  }

  /** The terminal error type, NULL when the attempt carries none. */
  function TerminalErrorType(a: Attempt): Option<string> {
    if a.error.Some? && a.error.value.kind != "" then Some(a.error.value.kind) else None
  }

  function DeadRow(row: TaskRow, a: Attempt, now: Time): DlqRow {
    DlqRow(row.queue, row.handlerRef, row.body, row.createdAt, row.attemptCount + 1, row.redriveCount,
           now, TerminalErrorType(a))
  }

  function AfterDeadLetter(db: Db, id: TaskId, token: Token, a: Attempt, now: Time): (Db, Reply) {
    if !Holds(db, id, token) then (db, StaleClaim)
    else if id in db.dlq || Taken(db, id, a.no) then (db, Violation)
    else
      (Db(db.task - {id}, db.dlq[id := DeadRow(db.task[id], a, now)], Insert(db.attempt, id, a), db.issued), Done)
  }

  // ---------- admission ----------

  function RowOf(t: Task): TaskRow {
    TaskRow(t.queue, t.handlerRef, t.body, t.createdAt, t.status, t.attemptCount, t.redriveCount, t.nextAt, t.leaseAt, None)
  }

  /** Inserting a whole history; None when a number repeats or is already taken. */
  function InsertAll(att: AttemptTable, id: TaskId, attempts: seq<Attempt>): Option<AttemptTable>
    decreases |attempts|
  {
    if attempts == [] then Some(att)
    else
      var a := attempts[|attempts| - 1];
      match InsertAll(att, id, attempts[..|attempts| - 1])
      case None => None
      case Some(t) => if a.no in RowsOf(t, id) then None else Some(Insert(t, id, a))
  }

  function QueueOf(db: Db, id: TaskId): Option<string> {
    if id in db.task then Some(db.task[id].queue)
    else if id in db.dlq then Some(db.dlq[id].queue)
    else None
  }

  function AfterEnqueue(db: Db, id: TaskId, t: Task): (Db, Reply) {
    var existing := QueueOf(db, id);
    if existing.Some? then (db, if existing.value != t.queue then IdConflict else Done)
    else if t.status.Dead? then (db, Violation)  // CHECK (status IN ...)
    else
      match InsertAll(db.attempt, id, t.attempts)
      case None => (db, Violation)
      case Some(att) => (db.(task := db.task[id := RowOf(t)], attempt := att), Done)
  }

  // ---------- claiming ----------

  predicate Due(row: TaskRow, queue: string, now: Time) {
    && row.queue == queue
    && ((row.status.Pending? && row.nextAt.Some? && row.nextAt.value <= now)
        || (row.status.InFlight? && row.leaseAt.Some? && row.leaseAt.value <= now))
  }

  function DueIds(db: Db, queue: string, now: Time): set<TaskId> {
    set id | id in db.task && Due(db.task[id], queue, now)
  }

  /** ORDER BY next_attempt_at: ascending, NULL last, ties in any order. */
  predicate NotAfter(a: TaskRow, b: TaskRow) {
    b.nextAt.Some? ==> a.nextAt.Some? && a.nextAt.value <= b.nextAt.value
  }

  function LeasedRow(row: TaskRow, token: Token, lease: int, now: Time): TaskRow {
    row.(status := InFlight, leaseAt := Some(now + lease), claimToken := Some(token),
         attemptCount := row.attemptCount + if row.status.InFlight? then 1 else 0)
  }

  /** started_at is the moment the lost lease lapsed. */
  function ExpiredRow(row: TaskRow, no: int, now: Time): Attempt {
    Attempt(no, if row.leaseAt.Some? then row.leaseAt.value else now, Some(now), LeaseExpired,
            Some(Error(LEASE_EXPIRED_TYPE, LEASE_EXPIRED_MESSAGE)))
  }

  ghost predicate AllowedClaims(db: Db, queue: string, limit: int, now: Time, granted: map<TaskId, Token>) {
    var due := DueIds(db, queue, now);
    && granted.Keys <= due
    && |granted| == (if limit <= |due| then limit else |due|)
    && (forall id, other :: id in granted && other in due && other !in granted ==> NotAfter(db.task[id], db.task[other]))
    && FreshTokens(db, granted)
  }

  /** Generated tokens are new: distinct from one another and from every earlier one. */
  ghost predicate FreshTokens(db: Db, granted: map<TaskId, Token>) {
    && (forall id :: id in granted ==> granted[id] != "" && granted[id] !in db.issued)
    && (forall id, other :: id in granted && other in granted && granted[id] == granted[other] ==> id == other)
  }

  predicate Reclaims(db: Db, granted: map<TaskId, Token>, id: TaskId) {
    id in granted && id in db.task && db.task[id].status.InFlight?
  }

  ghost predicate ClaimStep(db: Db, queue: string, limit: int, lease: int, now: Time, granted: map<TaskId, Token>, db': Db) {
    if limit <= 0 then granted == map[] && db' == db
    else
      && AllowedClaims(db, queue, limit, now, granted)
      && db'.dlq == db.dlq
      && db'.issued == db.issued + granted.Values
      && db'.task.Keys == db.task.Keys
      && (forall id :: id in db.task ==>
            db'.task[id] == if id in granted then LeasedRow(db.task[id], granted[id], lease, now) else db.task[id])
      && ExpiriesRecorded(db, now, granted, db'.attempt)
  }

  /** Exactly one LEASE_EXPIRED row per reclaimed task, numbered MAX + 1. */
  ghost predicate ExpiriesRecorded(db: Db, now: Time, granted: map<TaskId, Token>, att': AttemptTable) {
    && att'.Keys == db.attempt.Keys + (set id | id in granted && Reclaims(db, granted, id))
    && (forall id :: id in att' ==>
          att'[id] == if Reclaims(db, granted, id) then WithExpiry(RowsOf(db.attempt, id), db.task[id], now)
                      else db.attempt[id])
  }

  ghost function WithExpiry(rows: Rows, row: TaskRow, now: Time): Rows {
    rows[MaxNo(rows) + 1 := ExpiredRow(row, MaxNo(rows) + 1, now)]
  }

  /** The envelopes reassembled from a row and the loaded attempts. */
  function LiveEnvelope(row: TaskRow, attempts: seq<Attempt>): Task {
    Task(row.queue, row.handlerRef, row.body, row.createdAt, row.status, row.attemptCount, row.redriveCount,
         row.nextAt, row.leaseAt, attempts)
  }

  function DeadEnvelope(row: DlqRow, attempts: seq<Attempt>): Task {
    Task(row.queue, row.handlerRef, row.body, row.createdAt, Dead, row.attemptCount, row.redriveCount, None, None, attempts)
  }

  /** The envelope of an id: the live row, or else the dead one. */
  ghost function Found(db: Db, id: TaskId): Option<Task> {
    if id in db.task then Some(LiveEnvelope(db.task[id], History(RowsOf(db.attempt, id))))
    else if id in db.dlq then Some(DeadEnvelope(db.dlq[id], History(RowsOf(db.attempt, id))))
    else None
  }

  // ---------- dead letters ----------

  predicate Matches(row: DlqRow, f: DlqFilter) {
    && (f.handlerRef != "" ==> row.handlerRef == f.handlerRef)
    && (f.errorType != "" ==> row.errorType == Some(f.errorType))
    && (f.deadAfter.Some? ==> row.deadAt >= f.deadAfter.value)
    && (f.deadBefore.Some? ==> row.deadAt < f.deadBefore.value)
  }

  predicate Selects(row: DlqRow, queue: string, sel: Selector, id: TaskId) {
    && row.queue == queue
    && if |sel.ids| > 0 then id in sel.ids else sel.filter.Some? && Matches(row, sel.filter.value)
  }

  function Selection(db: Db, queue: string, sel: Selector): set<TaskId> {
    set id | id in db.dlq && Selects(db.dlq[id], queue, sel, id)
  }

  function RedrivenRow(row: DlqRow, now: Time): TaskRow {
    TaskRow(row.queue, row.handlerRef, row.body, row.createdAt, Pending, 0, row.redriveCount + 1, Some(now), None, None)
  }

  function MovedRows(db: Db, moved: set<TaskId>, now: Time): map<TaskId, TaskRow> {
    map id | id in moved && id in db.dlq :: RedrivenRow(db.dlq[id], now)
  }

  function AfterRedrive(db: Db, queue: string, sel: Selector, now: Time): (Db, Reply) {
    var moved := Selection(db, queue, sel);
    if moved * db.task.Keys != {} then (db, Violation)  // PRIMARY KEY (id)
    else
      (db.(task := db.task + MovedRows(db, moved, now), dlq := db.dlq - moved), Count(|moved|))
  }

  function AfterPurge(db: Db, queue: string, sel: Selector): (Db, Reply) {
    var purged := Selection(db, queue, sel);
    (db.(dlq := db.dlq - purged, attempt := db.attempt - purged), Count(|purged|))
  }

  /** COALESCE(max(finished_at), created_at) < olderThan. */
  predicate FinishedBefore(db: Db, id: TaskId, olderThan: Time)
    requires id in db.task
  {
    var rows := RowsOf(db.attempt, id);
    if exists n :: n in rows && rows[n].finishedAt.Some? then
      forall n :: n in rows && rows[n].finishedAt.Some? ==> rows[n].finishedAt.value < olderThan
    else db.task[id].createdAt < olderThan
  }

  function Aged(db: Db, queue: string, olderThan: Time): set<TaskId> {
    set id | id in db.task && db.task[id].queue == queue && db.task[id].status.Succeeded?
             && FinishedBefore(db, id, olderThan)
  }

  function AfterPurgeSucceeded(db: Db, queue: string, olderThan: Time): (Db, Reply) {
    var purged := Aged(db, queue, olderThan);
    (db.(task := db.task - purged, attempt := db.attempt - purged), Count(|purged|))
  }
}
