/** Envelopes as table rows: one task row and one row per attempt, with nullable columns for
    what may be missing. A nil map or slice is None; JSON columns hold objects, never NULL. */
module Mapping {
  import opened Spi
  import PM = PgModel

  type Object = map<string, string>

  datatype Fault = Fault(kind: string, message: string, stack: string, detail: Option<string>)

  datatype AttemptRecord = AttemptRecord(
    no: int,
    startedAt: Time,
    finishedAt: Option<Time>,
    outcome: Outcome,
    error: Option<Fault>,
    residual: Option<Object>)

  datatype Envelope = Envelope(
    version: int,
    id: TaskId,
    queue: string,
    handlerRef: string,
    handlerVersion: string,
    payload: string,
    contentType: string,
    payloadRef: Option<string>,
    headers: Option<Object>,
    status: Status,
    attemptCount: int,
    redriveCount: int,
    nextAt: Option<Time>,
    leaseAt: Option<Time>,
    createdAt: Time,
    attempts: Option<seq<AttemptRecord>>,
    residual: Option<Object>)

  datatype TaskRow = TaskRow(
    id: TaskId,
    queue: string,
    version: int,
    handlerRef: string,
    handlerVersion: Option<string>,
    payload: string,
    contentType: string,
    payloadRef: Option<string>,
    headers: Object,
    status: Status,
    attemptCount: int,
    redriveCount: int,
    nextAt: Option<Time>,
    leaseAt: Option<Time>,
    createdAt: Time,
    residual: Object)

  datatype AttemptRow = AttemptRow(
    taskId: TaskId,
    no: int,
    startedAt: Time,
    finishedAt: Option<Time>,
    outcome: Outcome,
    errorType: Option<string>,
    errorMessage: Option<string>,
    errorDetail: Option<string>,
    errorStack: Option<string>,
    residual: Object)

  // ---------- columns ----------

  function EmptyToNil(s: string): Option<string> { if s == "" then None else Some(s) }

  function NilToEmpty(s: Option<string>): string { if s.None? then "" else s.value }

  /** Absent and empty are written alike. */
  function EncodeObject(o: Option<Object>): Object { if o.None? then map[] else o.value }

  function DecodeObject(o: Object): Option<Object> { if o == map[] then None else Some(o) }

  function Text(s: Option<string>): Option<string> { if s == Some("") then None else s }

  function ToTaskRow(e: Envelope): TaskRow {
    TaskRow(e.id, e.queue, e.version, e.handlerRef, EmptyToNil(e.handlerVersion), e.payload, e.contentType, e.payloadRef,
            EncodeObject(e.headers), e.status, e.attemptCount, e.redriveCount, e.nextAt, e.leaseAt, e.createdAt,
            EncodeObject(e.residual))
  }

  /** The error is spread over four columns; no error leaves them all NULL. */
  function ToAttemptRow(id: TaskId, a: AttemptRecord): AttemptRow {
    var row := AttemptRow(id, a.no, a.startedAt, a.finishedAt, a.outcome, None, None, None, None, EncodeObject(a.residual));
    match a.error
    case None => row
    case Some(e) =>
      row.(errorType := Some(e.kind), errorMessage := Some(e.message), errorStack := EmptyToNil(e.stack), errorDetail := Text(e.detail))
  }

  /** A NULL error_type marks an attempt without error. */
  function FromAttemptRow(r: AttemptRow): AttemptRecord {
    AttemptRecord(r.no, r.startedAt, r.finishedAt, r.outcome,
      if r.errorType.None? then None
      else Some(Fault(r.errorType.value, NilToEmpty(r.errorMessage), NilToEmpty(r.errorStack), Text(r.errorDetail))),
      DecodeObject(r.residual))
  }

  function ToAttemptRows(id: TaskId, attempts: seq<AttemptRecord>): (rows: seq<AttemptRow>)
    ensures |rows| == |attempts| && forall i :: 0 <= i < |attempts| ==> rows[i] == ToAttemptRow(id, attempts[i])
  {
    seq(|attempts|, i requires 0 <= i < |attempts| => ToAttemptRow(id, attempts[i]))
  }

  function AttemptsOf(e: Envelope): seq<AttemptRecord> { if e.attempts.None? then [] else e.attempts.value }

  function FromAttemptRows(rows: seq<AttemptRow>): (attempts: seq<AttemptRecord>)
    ensures |attempts| == |rows| && forall i :: 0 <= i < |rows| ==> attempts[i] == FromAttemptRow(rows[i])
  {
    seq(|rows|, i requires 0 <= i < |rows| => FromAttemptRow(rows[i]))
  }

  function FromRows(t: TaskRow, rows: seq<AttemptRow>): Envelope {
    Envelope(t.version, t.id, t.queue, t.handlerRef, NilToEmpty(t.handlerVersion), t.payload, t.contentType, t.payloadRef,
             DecodeObject(t.headers), t.status, t.attemptCount, t.redriveCount, t.nextAt, t.leaseAt, t.createdAt,
             if rows == [] then None else Some(FromAttemptRows(rows)),
             DecodeObject(t.residual))
  }

  // ---------- as written ----------

  method AttemptRowsFromEnvelope(e: Envelope) returns (rows: seq<AttemptRow>)
    ensures rows == ToAttemptRows(e.id, AttemptsOf(e))
  {
    rows := [];
    var attempts := AttemptsOf(e);
    for i := 0 to |attempts|
      invariant |rows| == i
      invariant forall j :: 0 <= j < i ==> rows[j] == ToAttemptRow(e.id, attempts[j])
    {
      var a := attempts[i];
      var row := AttemptRow(e.id, a.no, a.startedAt, a.finishedAt, a.outcome, None, None, None, None, EncodeObject(a.residual));
      if a.error.Some? {
        var err := a.error.value;
        row := row.(errorType := Some(err.kind), errorMessage := Some(err.message), errorStack := EmptyToNil(err.stack));
        if err.detail.Some? && |err.detail.value| > 0 {
          row := row.(errorDetail := err.detail);
        }
      }
      rows := rows + [row];
    }
  }

  method EnvelopeFromRows(t: TaskRow, rows: seq<AttemptRow>) returns (e: Envelope)
    ensures e == FromRows(t, rows)
  {
    e := Envelope(t.version, t.id, t.queue, t.handlerRef, NilToEmpty(t.handlerVersion), t.payload, t.contentType, t.payloadRef,
                  DecodeObject(t.headers), t.status, t.attemptCount, t.redriveCount, t.nextAt, t.leaseAt, t.createdAt,
                  None, DecodeObject(t.residual));
    if |rows| > 0 {
      var attempts := [];
      for i := 0 to |rows|
        invariant |attempts| == i
        invariant forall j :: 0 <= j < i ==> attempts[j] == FromAttemptRow(rows[j])
      {
        attempts := attempts + [FromAttemptRow(rows[i])];
      }
      assert attempts == FromAttemptRows(rows);
      e := e.(attempts := Some(attempts));
    }
  }

  // ---------- round trips ----------

  /** Empty maps, slices and texts become nil; nothing else changes. */
  function NormObject(o: Option<Object>): Option<Object> { if o == Some(map[]) then None else o }

  function NormAttempt(a: AttemptRecord): AttemptRecord {
    a.(residual := NormObject(a.residual),
       error := if a.error.None? then None else Some(a.error.value.(detail := Text(a.error.value.detail))))
  }

  function NormEach(attempts: seq<AttemptRecord>): (r: seq<AttemptRecord>)
    ensures |r| == |attempts| && forall i :: 0 <= i < |attempts| ==> r[i] == NormAttempt(attempts[i])
  {
    seq(|attempts|, i requires 0 <= i < |attempts| => NormAttempt(attempts[i]))
  }

  function NormAttempts(attempts: Option<seq<AttemptRecord>>): Option<seq<AttemptRecord>> {
    if attempts.None? || attempts.value == [] then None
    else Some(NormEach(attempts.value))
  }

  function Norm(e: Envelope): Envelope {
    e.(headers := NormObject(e.headers), residual := NormObject(e.residual), attempts := NormAttempts(e.attempts))
  }

  lemma AttemptRoundTrip(id: TaskId, a: AttemptRecord)
    ensures FromAttemptRow(ToAttemptRow(id, a)) == NormAttempt(a)
  {
  }

  /** Taking an envelope apart and putting it together changes nothing but empty to nil. */
  lemma EnvelopeRoundTrip(e: Envelope)
    ensures FromRows(ToTaskRow(e), ToAttemptRows(e.id, AttemptsOf(e))) == Norm(e)
  {
    hide FromAttemptRow, ToAttemptRow, NormAttempt;
    var attempts, rows := AttemptsOf(e), ToAttemptRows(e.id, AttemptsOf(e));
    forall i | 0 <= i < |rows| ensures FromAttemptRow(rows[i]) == NormAttempt(attempts[i]) {
      AttemptRoundTrip(e.id, attempts[i]);
    }
    assert FromAttemptRows(rows) == NormEach(attempts);
  }

  /** The rows this code writes: error columns all NULL, or type and message set and the other
      two NULL rather than empty. */
  predicate Written(r: AttemptRow) {
    if r.errorType.None? then r.errorMessage.None? && r.errorStack.None? && r.errorDetail.None?
    else r.errorMessage.Some? && r.errorStack != Some("") && r.errorDetail != Some("")
  }

  /** A row comes back from the attempt it is read as exactly when it is one this code writes. */
  lemma RowRoundTrip(r: AttemptRow)
    ensures ToAttemptRow(r.taskId, FromAttemptRow(r)) == r <==> Written(r)
    ensures forall id, a :: Written(ToAttemptRow(id, a))
  {
  }

  /** An empty version column reads like a NULL one, so only those two task rows collide. */
  lemma TaskRowRoundTrip(t: TaskRow, rows: seq<AttemptRow>)
    ensures ToTaskRow(FromRows(t, rows)) == t <==> t.handlerVersion != Some("")
  {
  }

  lemma NormSettles(e: Envelope)
    ensures Norm(Norm(e)) == Norm(e)
    ensures ToTaskRow(Norm(e)) == ToTaskRow(e)
    ensures ToAttemptRows(e.id, AttemptsOf(Norm(e))) == ToAttemptRows(e.id, AttemptsOf(e))
  {
    hide ToAttemptRow, NormAttempt;
    var attempts := AttemptsOf(e);
    forall i | 0 <= i < |attempts|
      ensures NormAttempt(NormAttempt(attempts[i])) == NormAttempt(attempts[i])
      ensures ToAttemptRow(e.id, NormAttempt(attempts[i])) == ToAttemptRow(e.id, attempts[i])
    {
      NormAttemptSettles(e.id, attempts[i]);
    }
    assert NormEach(NormEach(attempts)) == NormEach(attempts);
    assert ToAttemptRows(e.id, NormEach(attempts)) == ToAttemptRows(e.id, attempts);
  }

  lemma NormAttemptSettles(id: TaskId, a: AttemptRecord)
    ensures NormAttempt(NormAttempt(a)) == NormAttempt(a)
    ensures ToAttemptRow(id, NormAttempt(a)) == ToAttemptRow(id, a)
  {
  }

  // ---------- columns ----------

  /** The columns the store's statements read and write, as the tables declare them. */
  function Columns(t: TaskRow): PM.TaskRow {
    PM.TaskRow(t.queue, t.handlerRef, t.payload, t.createdAt, t.status, t.attemptCount, t.redriveCount, t.nextAt, t.leaseAt, None)
  }

  /** The part of an envelope the store acts on. */
  function TaskOf(e: Envelope): Task {
    Task(e.queue, e.handlerRef, e.payload, e.createdAt, e.status, e.attemptCount, e.redriveCount, e.nextAt, e.leaseAt,
         AttemptsSeen(AttemptsOf(e)))
  }

  function AttemptSeen(a: AttemptRecord): Attempt {
    Attempt(a.no, a.startedAt, a.finishedAt, a.outcome,
            if a.error.None? then None else Some(Error(a.error.value.kind, a.error.value.message)))
  }

  function AttemptsSeen(attempts: seq<AttemptRecord>): (r: seq<Attempt>)
    ensures |r| == |attempts| && forall i :: 0 <= i < |attempts| ==> r[i] == AttemptSeen(attempts[i])
  {
    seq(|attempts|, i requires 0 <= i < |attempts| => AttemptSeen(attempts[i]))
  }

  /** The row of an envelope is the row the store's transactions work on. */
  lemma RowIsStored(e: Envelope)
    ensures Columns(ToTaskRow(e)) == PM.RowOf(TaskOf(e))
    ensures var t := ToTaskRow(e);
            && t.id == e.id && t.version == e.version && t.contentType == e.contentType && t.payloadRef == e.payloadRef
            && NilToEmpty(t.handlerVersion) == e.handlerVersion
            && (e.headers.Some? ==> t.headers == e.headers.value) && (e.residual.Some? ==> t.residual == e.residual.value)
  {
  }

  /** The row of an attempt carries its number, times and outcome, and the error type a
      dead-letter row repeats is the one in its column. */
  lemma AttemptRowIsStored(id: TaskId, a: AttemptRecord)
    ensures var row, seen := ToAttemptRow(id, a), AttemptSeen(a);
            && row.taskId == id && row.no == seen.no && row.startedAt == seen.startedAt && row.finishedAt == seen.finishedAt
            && row.outcome == seen.outcome && (row.errorType.Some? <==> seen.error.Some?)
            && (seen.error.Some? ==>
                  row.errorType == Some(seen.error.value.kind) && row.errorMessage == Some(seen.error.value.message))
            && PM.TerminalErrorType(seen) == Text(row.errorType)
            && (a.error.Some? ==> NilToEmpty(row.errorStack) == a.error.value.stack && row.errorDetail == Text(a.error.value.detail))
  {
  }
}
