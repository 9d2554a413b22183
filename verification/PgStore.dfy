/** The PostgreSQL store as code: each method runs the statements of one transaction against
    the tables and is proved to make the transition PgModel gives for its call. */
module PgStore {
  import opened Spi
  import opened Ordering
  import opened Paging
  import opened PgModel
  import opened PgPaging
  import L = Lifecycle
  import PR = PgRefines

  datatype Lease = Lease(id: TaskId, env: Task, token: Token)

  // ---------- claiming, statement by statement ----------

  predicate First(rows: map<TaskId, TaskRow>, ids: set<TaskId>, id: TaskId)
    requires ids <= rows.Keys
  {
    id in ids && forall other :: other in ids ==> NotAfter(rows[id], rows[other])
  }

  lemma {:induction false} HasFirst(rows: map<TaskId, TaskRow>, ids: set<TaskId>)
    requires ids <= rows.Keys && ids != {}
    ensures exists id :: First(rows, ids, id)
    decreases |ids|
  {
    var x :| x in ids;
    var rest := ids - {x};
    if rest == {} {
      assert ids == {x};
      assert First(rows, ids, x);
    } else {
      HasFirst(rows, rest);
      var y :| First(rows, rest, y);
      if NotAfter(rows[x], rows[y]) {
        assert First(rows, ids, x);
      } else {
        assert First(rows, ids, y);
      }
    }
  }

  /** The rows the claim locks: due, as many as allowed, none left out before one taken. */
  ghost predicate IsPick(db: Db, queue: string, limit: int, now: Time, picked: seq<TaskId>) {
    var due := DueIds(db, queue, now);
    && Distinct(picked)
    && (forall id :: id in picked ==> id in due)
    && |picked| == (if limit <= |due| then limit else |due|)
    && (forall id, other :: id in picked && other in due && other !in picked ==> NotAfter(db.task[id], db.task[other]))
  }

  function TokensOf(picked: seq<TaskId>, tokens: seq<Token>): (granted: map<TaskId, Token>)
    requires Distinct(picked) && |picked| <= |tokens|
    ensures forall id :: id in granted <==> id in picked
    ensures forall i :: 0 <= i < |picked| ==> granted[picked[i]] == tokens[i]
  {
    map i | 0 <= i < |picked| :: picked[i] := tokens[i]
  }

  function FlippedRow(row: TaskRow, token: Token, lease: int, now: Time): TaskRow {
    row.(status := InFlight, leaseAt := Some(now + lease), claimToken := Some(token))
  }

  /** New random tokens, as many as could be needed. */
  predicate FreshSupply(issued: set<Token>, tokens: seq<Token>) {
    Distinct(tokens) && forall t :: t in tokens ==> t != "" && t !in issued
  }

  lemma {:induction false} PickedSize(picked: seq<TaskId>)
    requires Distinct(picked)
    ensures |set id | id in picked| == |picked|
    decreases |picked|
  {
    if picked != [] {
      var n := |picked| - 1;
      PickedSize(picked[..n]);
      assert (set id | id in picked) == (set id | id in picked[..n]) + {picked[n]};
    }
  }

  /** A pick with fresh tokens is what a claim may grant. */
  lemma PickAllowed(db: Db, queue: string, limit: int, now: Time, picked: seq<TaskId>, tokens: seq<Token>)
    requires IsPick(db, queue, limit, now, picked) && FreshSupply(db.issued, tokens) && |picked| <= |tokens|
    ensures AllowedClaims(db, queue, limit, now, TokensOf(picked, tokens))
  {
    hide DueIds, NotAfter, TokensOf, FreshTokens, FreshSupply;
    var granted := TokensOf(picked, tokens);
    PickedSize(picked);
    assert granted.Keys == set id | id in picked;
    assert |granted| == |granted.Keys|;
    TokensFresh(db, picked, tokens);
  }

  lemma TokensUsed(picked: seq<TaskId>, tokens: seq<Token>)
    requires Distinct(picked) && |picked| <= |tokens|
    ensures TokensOf(picked, tokens).Values == set t | t in tokens[..|picked|]
  {
    hide TokensOf;
    var granted := TokensOf(picked, tokens);
    forall t | t in granted.Values ensures t in tokens[..|picked|] {
      var id :| id in granted && granted[id] == t;
      var i :| 0 <= i < |picked| && picked[i] == id;
      assert tokens[..|picked|][i] == t;
    }
    forall t | t in tokens[..|picked|] ensures t in granted.Values {
      var i :| 0 <= i < |picked| && tokens[i] == t;
      assert picked[i] in granted;
    }
  }

  lemma TokensFresh(db: Db, picked: seq<TaskId>, tokens: seq<Token>)
    requires Distinct(picked) && FreshSupply(db.issued, tokens) && |picked| <= |tokens|
    ensures FreshTokens(db, TokensOf(picked, tokens))
  {
    var granted := TokensOf(picked, tokens);
    forall id | id in granted ensures granted[id] != "" && granted[id] !in db.issued {
      var i :| 0 <= i < |picked| && picked[i] == id;
      assert tokens[i] in tokens;
    }
    forall id, other | id in granted && other in granted && granted[id] == granted[other] ensures id == other {
      var i :| 0 <= i < |picked| && picked[i] == id;
      var j :| 0 <= j < |picked| && picked[j] == other;
    }
  }

  /** The picked rows whose lost lease is being reclaimed. */
  function ExpiredIds(was: map<TaskId, TaskRow>, picked: seq<TaskId>): set<TaskId> {
    set id | id in picked && id in was && was[id].status.InFlight?
  }

  ghost predicate Flipped(before: map<TaskId, TaskRow>, granted: map<TaskId, Token>, lease: int, now: Time, after: map<TaskId, TaskRow>) {
    && after.Keys == before.Keys
    && forall id :: id in before ==>
         after[id] == if id in granted then FlippedRow(before[id], granted[id], lease, now) else before[id]
  }

  /** The first n of the picked rows flipped. */
  ghost predicate FlippedPart(before: map<TaskId, TaskRow>, picked: seq<TaskId>, tokens: seq<Token>, n: nat, lease: int, now: Time,
                              after: map<TaskId, TaskRow>)
    requires n <= |picked| <= |tokens|
  {
    && after.Keys == before.Keys
    && (forall id :: id in before && id !in picked[..n] ==> after[id] == before[id])
    && (forall j :: 0 <= j < n ==>
          picked[j] in before && after[picked[j]] == FlippedRow(before[picked[j]], tokens[j], lease, now))
  }

  lemma NoneFlipped(before: map<TaskId, TaskRow>, picked: seq<TaskId>, tokens: seq<Token>, lease: int, now: Time)
    requires |picked| <= |tokens|
    ensures FlippedPart(before, picked, tokens, 0, lease, now, before)
  {
  }

  lemma OneMoreFlipped(before: map<TaskId, TaskRow>, picked: seq<TaskId>, tokens: seq<Token>, n: nat, lease: int, now: Time,
                       after: map<TaskId, TaskRow>)
    requires n < |picked| <= |tokens| && Distinct(picked) && picked[n] in before
    requires FlippedPart(before, picked, tokens, n, lease, now, after)
    ensures picked[n] in after
    ensures FlippedPart(before, picked, tokens, n + 1, lease, now, after[picked[n] := FlippedRow(after[picked[n]], tokens[n], lease, now)])
  {
    hide FlippedRow;
    assert picked[..n + 1] == picked[..n] + [picked[n]];
  }

  lemma AllFlipped(before: map<TaskId, TaskRow>, picked: seq<TaskId>, tokens: seq<Token>, lease: int, now: Time, after: map<TaskId, TaskRow>)
    requires |picked| <= |tokens| && Distinct(picked) && FlippedPart(before, picked, tokens, |picked|, lease, now, after)
    ensures Flipped(before, TokensOf(picked, tokens), lease, now, after)
  {
    hide FlippedRow, TokensOf;
    assert picked[..|picked|] == picked;
  }

  function Counted(row: TaskRow): TaskRow { row.(attemptCount := row.attemptCount + 1) }

  ghost predicate CountedIn(before: map<TaskId, TaskRow>, ids: set<TaskId>, after: map<TaskId, TaskRow>) {
    && after.Keys == before.Keys
    && forall id :: id in before ==> after[id] == if id in ids then Counted(before[id]) else before[id]
  }

  ghost predicate ExpiryRows(before: AttemptTable, was: map<TaskId, TaskRow>, ids: set<TaskId>, now: Time, after: AttemptTable) {
    && ids <= was.Keys
    && after.Keys == before.Keys + ids
    && forall id :: id in after ==>
         after[id] == if id in ids then WithExpiry(RowsOf(before, id), was[id], now) else before[id]
  }

  lemma FlippedKeys(before: map<TaskId, TaskRow>, granted: map<TaskId, Token>, lease: int, now: Time, after: map<TaskId, TaskRow>)
    requires Flipped(before, granted, lease, now, after)
    ensures after.Keys == before.Keys
  {
  }

  lemma CountedKeys(before: map<TaskId, TaskRow>, ids: set<TaskId>, after: map<TaskId, TaskRow>)
    requires CountedIn(before, ids, after)
    ensures after.Keys == before.Keys
  {
  }

  lemma OneMoreCounted(before: map<TaskId, TaskRow>, ids: set<TaskId>, after: map<TaskId, TaskRow>, id: TaskId)
    requires CountedIn(before, ids, after) && id in before && id !in ids
    ensures id in after && CountedIn(before, ids + {id}, after[id := Counted(after[id])])
  {
    hide Counted;
  }

  lemma OneMoreExpiry(before: AttemptTable, was: map<TaskId, TaskRow>, ids: set<TaskId>, now: Time, after: AttemptTable, id: TaskId)
    requires ExpiryRows(before, was, ids, now, after) && id in was && id !in ids
    ensures ExpiryRows(before, was, ids + {id}, now, after[id := WithExpiry(RowsOf(after, id), was[id], now)])
  {
    hide WithExpiry;
  }

  lemma NoneExpired(task: map<TaskId, TaskRow>, att: AttemptTable, was: map<TaskId, TaskRow>, picked: seq<TaskId>, now: Time)
    ensures CountedIn(task, ExpiredIds(was, picked[..0]), task)
    ensures ExpiryRows(att, was, ExpiredIds(was, picked[..0]), now, att)
  {
    hide WithExpiry;
    assert ExpiredIds(was, picked[..0]) == {};
  }

  lemma OneMoreExpired(was: map<TaskId, TaskRow>, picked: seq<TaskId>, i: nat)
    requires Distinct(picked) && i < |picked| && picked[i] in was
    ensures picked[i] !in ExpiredIds(was, picked[..i])
    ensures was[picked[i]].status.InFlight? ==> ExpiredIds(was, picked[..i + 1]) == ExpiredIds(was, picked[..i]) + {picked[i]}
    ensures !was[picked[i]].status.InFlight? ==> ExpiredIds(was, picked[..i + 1]) == ExpiredIds(was, picked[..i])
  {
    assert picked[..i + 1] == picked[..i] + [picked[i]];
  }

  /** A lease handed out: the token granted, the row with its whole history, and with that the
      task the contract grants and stores. */
  ghost predicate HandedOut(db: Db, granted: map<TaskId, Token>, l: Lease) {
    && l.id in granted && l.token == granted[l.id] && l.id in db.task
    && l.env == LiveEnvelope(db.task[l.id], History(RowsOf(db.attempt, l.id)))
    && l.id in PR.GrantsOf(db, granted) && l.id in PR.Abs(db).tasks
    && L.NormTask(l.env) == PR.GrantsOf(db, granted)[l.id].task == PR.Abs(db).tasks[l.id].task
  }

  lemma AllHandedOut(db: Db, picked: seq<TaskId>, tokens: seq<Token>, claimed: seq<Lease>)
    requires Distinct(picked) && |picked| <= |tokens| && |claimed| == |picked|
    requires forall i :: 0 <= i < |picked| ==>
               && picked[i] in db.task
               && claimed[i] == Lease(picked[i], LiveEnvelope(db.task[picked[i]], History(RowsOf(db.attempt, picked[i]))), tokens[i])
    ensures forall l :: l in claimed ==> HandedOut(db, TokensOf(picked, tokens), l)
  {
    hide PR.GrantsOf, PR.Abs, L.NormTask, LiveEnvelope, History, TokensOf;
    forall l | l in claimed ensures HandedOut(db, TokensOf(picked, tokens), l) {
      var i :| 0 <= i < |claimed| && claimed[i] == l;
      PR.EnvelopeAbs(db, TokensOf(picked, tokens), picked[i]);
    }
  }

  lemma NothingClaimed(db: Db, queue: string, limit: int, lease: int, now: Time)
    requires limit <= 0
    ensures ClaimStep(db, queue, limit, lease, now, map[], db)
  {
  }

  lemma PickFacts(db: Db, queue: string, limit: int, now: Time, picked: seq<TaskId>)
    requires IsPick(db, queue, limit, now, picked)
    ensures Distinct(picked) && (limit >= 0 ==> |picked| <= limit) && forall id :: id in picked ==> id in db.task
  {
    hide Due, NotAfter;
  }

  lemma RowsLeased(db: Db, lease: int, now: Time, picked: seq<TaskId>, granted: map<TaskId, Token>, mid: map<TaskId, TaskRow>, after: map<TaskId, TaskRow>)
    requires Flipped(db.task, granted, lease, now, mid) && CountedIn(mid, ExpiredIds(db.task, picked), after)
    requires forall id :: id in granted <==> id in picked
    ensures after.Keys == db.task.Keys
    ensures forall id :: id in db.task ==>
              after[id] == if id in granted then LeasedRow(db.task[id], granted[id], lease, now) else db.task[id]
  {
  }

  lemma ExpiriesAre(db: Db, now: Time, picked: seq<TaskId>, granted: map<TaskId, Token>, after: AttemptTable)
    requires ExpiryRows(db.attempt, db.task, ExpiredIds(db.task, picked), now, after)
    requires forall id :: id in granted <==> id in picked
    ensures ExpiriesRecorded(db, now, granted, after)
  {
    hide WithExpiry;
    forall id ensures Reclaims(db, granted, id) <==> id in ExpiredIds(db.task, picked) { }
    assert ExpiredIds(db.task, picked) == set id | id in granted && Reclaims(db, granted, id);
  }

  /** The statements of the claim together make one claim step. */
  lemma ClaimedAll(db: Db, queue: string, limit: int, lease: int, now: Time, picked: seq<TaskId>, tokens: seq<Token>, mid: map<TaskId, TaskRow>, db': Db)
    requires limit > 0 && IsPick(db, queue, limit, now, picked) && Distinct(picked)
    requires FreshSupply(db.issued, tokens) && |picked| <= |tokens|
    requires Flipped(db.task, TokensOf(picked, tokens), lease, now, mid)
    requires CountedIn(mid, ExpiredIds(db.task, picked), db'.task)
    requires ExpiryRows(db.attempt, db.task, ExpiredIds(db.task, picked), now, db'.attempt)
    requires db'.dlq == db.dlq && db'.issued == db.issued + set t | t in tokens[..|picked|]
    ensures ClaimStep(db, queue, limit, lease, now, TokensOf(picked, tokens), db')
    ensures |TokensOf(picked, tokens)| == |picked|
  {
    hide IsPick, FreshSupply, TokensOf, AllowedClaims, ExpiriesRecorded, Flipped, CountedIn, ExpiryRows, LeasedRow, Distinct;
    PickAllowed(db, queue, limit, now, picked, tokens);
    TokensUsed(picked, tokens);
    var granted := TokensOf(picked, tokens);
    RowsLeased(db, lease, now, picked, granted, mid, db'.task);
    ExpiriesAre(db, now, picked, granted, db'.attempt);
    PickedSize(picked);
    assert granted.Keys == set id | id in picked;
    assert |granted| == |granted.Keys|;
  }

  class Store {
    var task: map<TaskId, TaskRow>
    var dlq: map<TaskId, DlqRow>
    var attempt: AttemptTable
    // Not a table: every claim token generated so far.
    var issued: set<Token>

    function View(): Db
      reads this
    {
      Db(task, dlq, attempt, issued)
    }

    constructor ()
      ensures View() == Db(map[], map[], map[], {})
    {
      task, dlq, attempt, issued := map[], map[], map[], {};
    }

    /** INSERT INTO rdq_attempt; refused when (task_id, attempt_no) is taken. */
    method InsertAttempt(id: TaskId, a: Attempt) returns (ok: bool)
      modifies this`attempt
      ensures ok <==> !Taken(old(View()), id, a.no)
      ensures attempt == if ok then PgModel.Insert(old(attempt), id, a) else old(attempt)
    {
      var rows := RowsOf(attempt, id);
      if a.no in rows {
        return false;
      }
      attempt := attempt[id := rows[a.no := a]];
      return true;
    }

    method Enqueue(id: TaskId, t: Task) returns (reply: Reply)
      modifies this
      ensures (View(), reply) == AfterEnqueue(old(View()), id, t)
    {
      if id in task || id in dlq {
        var existing := if id in task then task[id].queue else dlq[id].queue;
        if existing != t.queue {
          return IdConflict;
        }
        return Done;
      }
      if t.status.Dead? {
        return Violation;
      }
      var saved := (task, attempt);
      ghost var before := attempt;
      task := task[id := RowOf(t)];
      var i := 0;
      while i < |t.attempts|
        invariant 0 <= i <= |t.attempts|
        invariant unchanged(`dlq) && unchanged(`issued)
        invariant task == saved.0[id := RowOf(t)]
        invariant InsertAll(before, id, t.attempts[..i]) == Some(attempt)
      {
        var n := i + 1;
        assert t.attempts[..n][..i] == t.attempts[..i];
        var ok := InsertAttempt(id, t.attempts[i]);
        if !ok {
          task, attempt := saved.0, saved.1;
          InsertStuck(before, id, t.attempts, n);
          return Violation;
        }
        i := n;
      }
      assert t.attempts[..i] == t.attempts;
      return Done;
    }

    /** UPDATE ... WHERE id = $1 AND status = 'IN_FLIGHT' AND claim_token = $2. */
    method ExtendLease(id: TaskId, token: Token, lease: int, now: Time) returns (reply: Reply)
      modifies this
      ensures (View(), reply) == AfterExtendLease(old(View()), id, token, lease, now)
    {
      if !Holds(View(), id, token) {
        return StaleClaim;
      }
      task := task[id := task[id].(leaseAt := Some(now + lease))];
      return Done;
    }

    method Reschedule(id: TaskId, token: Token, a: Attempt, nextAt: Time) returns (reply: Reply)
      modifies this
      ensures (View(), reply) == AfterReschedule(old(View()), id, token, a, nextAt)
    {
      if !Holds(View(), id, token) {
        return StaleClaim;
      }
      var saved := task;
      var row := task[id];
      task := task[id := row.(status := Pending, nextAt := Some(nextAt), leaseAt := None, claimToken := None,
                              attemptCount := row.attemptCount + 1)];
      var ok := InsertAttempt(id, a);
      if !ok {
        task := saved;
        return Violation;
      }
      return Done;
    }

    method Complete(id: TaskId, token: Token, a: Attempt) returns (reply: Reply)
      modifies this
      ensures (View(), reply) == AfterComplete(old(View()), id, token, a)
    {
      if !Holds(View(), id, token) {
        return StaleClaim;
      }
      var saved := task;
      var row := task[id];
      task := task[id := row.(status := Succeeded, nextAt := None, leaseAt := None, claimToken := None,
                              attemptCount := row.attemptCount + 1)];
      var ok := InsertAttempt(id, a);
      if !ok {
        task := saved;
        return Violation;
      }
      return Done;
    }

    method DeadLetter(id: TaskId, token: Token, a: Attempt, now: Time) returns (reply: Reply)
      modifies this
      ensures (View(), reply) == AfterDeadLetter(old(View()), id, token, a, now)
    {
      var errType := if a.error.Some? && a.error.value.kind != "" then Some(a.error.value.kind) else None;
      if !Holds(View(), id, token) {
        return StaleClaim;
      }
      if id in dlq {
        return Violation;
      }
      var saved := (task, dlq);
      var row := task[id];
      task := task - {id};
      dlq := dlq[id := DlqRow(row.queue, row.handlerRef, row.body, row.createdAt, row.attemptCount + 1,
                              row.redriveCount, now, errType)];
      var ok := InsertAttempt(id, a);
      if !ok {
        task, dlq := saved.0, saved.1;
        return Violation;
      }
      return Done;
    }

    /** ORDER BY next_attempt_at LIMIT $2 over the due rows, ties in any order. */
    method PickDue(queue: string, limit: nat, now: Time) returns (picked: seq<TaskId>)
      ensures IsPick(View(), queue, limit, now, picked)
    {
      hide Due, NotAfter;
      var rest := DueIds(View(), queue, now);
      ghost var due := rest;
      picked := [];
      while |picked| < limit && rest != {}
        invariant rest <= due && |picked| <= limit && |picked| + |rest| == |due|
        invariant Distinct(picked)
        invariant forall id :: id in due <==> id in rest || id in picked
        invariant forall id :: id in picked ==> id !in rest
        invariant forall id, other :: id in picked && other in rest ==> NotAfter(task[id], task[other])
        decreases rest
      {
        HasFirst(task, rest);
        var id :| id in rest && First(task, rest, id);
        rest := rest - {id};
        picked := picked + [id];
      }
    }

    /** The UPDATE of the claim statement. */
    method Flip(picked: seq<TaskId>, tokens: seq<Token>, lease: int, now: Time)
      requires Distinct(picked) && |picked| <= |tokens| && forall id :: id in picked ==> id in task
      modifies this`task, this`issued
      ensures Flipped(old(task), TokensOf(picked, tokens), lease, now, task)
      ensures issued == old(issued) + set t | t in tokens[..|picked|]
    {
      hide FlippedPart, Flipped, FlippedRow, TokensOf;
      ghost var before := task;
      NoneFlipped(before, picked, tokens, lease, now);
      var i := 0;
      while i < |picked|
        invariant 0 <= i <= |picked| && task.Keys == before.Keys
        invariant FlippedPart(before, picked, tokens, i, lease, now, task)
        invariant issued == old(issued) + set t | t in tokens[..i]
      {
        OneMoreFlipped(before, picked, tokens, i, lease, now, task);
        task := task[picked[i] := FlippedRow(task[picked[i]], tokens[i], lease, now)];
        issued := issued + {tokens[i]};
        assert tokens[..i + 1] == tokens[..i] + [tokens[i]];
        i := i + 1;
      }
      AllFlipped(before, picked, tokens, lease, now, task);
    }

    method RecordExpiry(id: TaskId, row: TaskRow, now: Time)
      requires id in task
      modifies this`task, this`attempt
      ensures task == old(task)[id := Counted(old(task)[id])]
      ensures attempt == old(attempt)[id := WithExpiry(RowsOf(old(attempt), id), row, now)]
    {
      var rows := RowsOf(attempt, id);
      var no := NextNumber(rows);
      attempt := attempt[id := rows[no := ExpiredRow(row, no, now)]];
      task := task[id := task[id].(attemptCount := task[id].attemptCount + 1)];
    }

    /** The follow-up loop: each reclaimed lease gains a LEASE_EXPIRED row numbered MAX + 1 and
        counts as an attempt. `was` holds the rows as the claim statement found them. */
    method RecordExpiries(picked: seq<TaskId>, was: map<TaskId, TaskRow>, now: Time)
      requires Distinct(picked) && forall id :: id in picked ==> id in task && id in was
      modifies this`task, this`attempt
      ensures CountedIn(old(task), ExpiredIds(was, picked), task)
      ensures ExpiryRows(old(attempt), was, ExpiredIds(was, picked), now, attempt)
    {
      hide WithExpiry, RowsOf, Counted, CountedIn, ExpiryRows, ExpiredIds;
      NoneExpired(task, attempt, was, picked, now);
      var i := 0;
      while i < |picked|
        invariant 0 <= i <= |picked| && task.Keys == old(task.Keys)
        invariant CountedIn(old(task), ExpiredIds(was, picked[..i]), task)
        invariant ExpiryRows(old(attempt), was, ExpiredIds(was, picked[..i]), now, attempt)
      {
        var id := picked[i];
        OneMoreExpired(was, picked, i);
        if was[id].status.InFlight? {
          OneMoreCounted(old(task), ExpiredIds(was, picked[..i]), task, id);
          OneMoreExpiry(old(attempt), was, ExpiredIds(was, picked[..i]), now, attempt, id);
          RecordExpiry(id, was[id], now);
        }
        i := i + 1;
      }
      assert picked[..i] == picked;
    }

    method ClaimDue(queue: string, limit: int, lease: int, now: Time, tokens: seq<Token>)
      returns (claimed: seq<Lease>, ghost granted: map<TaskId, Token>)
      requires limit <= |tokens| && FreshSupply(issued, tokens)
      modifies this
      ensures ClaimStep(old(View()), queue, limit, lease, now, granted, View())
      ensures Distinct(claimed) && |claimed| == |granted|
      ensures forall l :: l in claimed ==> HandedOut(View(), granted, l)
    {
      hide HandedOut, ClaimStep, IsPick, TokensOf, Flipped, CountedIn, ExpiryRows, ExpiredIds, FreshSupply, History, LiveEnvelope;
      claimed, granted := [], map[];
      ghost var db := View();
      if limit <= 0 {
        NothingClaimed(db, queue, limit, lease, now);
        return;
      }
      var picked := PickDue(queue, limit, now);
      PickFacts(db, queue, limit, now, picked);
      var was := task;
      Flip(picked, tokens, lease, now);
      ghost var mid := task;
      FlippedKeys(was, TokensOf(picked, tokens), lease, now, mid);
      RecordExpiries(picked, was, now);
      CountedKeys(mid, ExpiredIds(was, picked), task);
      granted := TokensOf(picked, tokens);
      ClaimedAll(db, queue, limit, lease, now, picked, tokens, mid, View());
      claimed := Assemble(picked, tokens);
      AllHandedOut(View(), picked, tokens, claimed);
    }

    method Assemble(picked: seq<TaskId>, tokens: seq<Token>) returns (claimed: seq<Lease>)
      requires |picked| <= |tokens| && forall id :: id in picked ==> id in task
      ensures |claimed| == |picked|
      ensures forall i :: 0 <= i < |picked| ==>
                && picked[i] in task
                && claimed[i] == Lease(picked[i], LiveEnvelope(task[picked[i]], History(RowsOf(attempt, picked[i]))), tokens[i])
    {
      hide History, LiveEnvelope;
      claimed := [];
      for i := 0 to |picked|
        invariant |claimed| == i
        invariant forall j :: 0 <= j < i ==>
                    claimed[j] == Lease(picked[j], LiveEnvelope(task[picked[j]], History(RowsOf(attempt, picked[j]))), tokens[j])
      {
        var id := picked[i];
        var attempts := LoadAttempts(RowsOf(attempt, id));
        claimed := claimed + [Lease(id, LiveEnvelope(task[id], attempts), tokens[i])];
      }
    }

    /** DELETE ... RETURNING feeding an INSERT: refused when an id is already a live task. */
    method Redrive(queue: string, sel: Selector, now: Time) returns (reply: Reply)
      modifies this
      ensures (View(), reply) == AfterRedrive(old(View()), queue, sel, now)
    {
      hide Selects, MovedRows;
      if |sel.ids| == 0 && sel.filter.None? {
        RedrivesNothing(View(), queue, sel, now);
        return Count(0);
      }
      ghost var db := View();
      var moved := set id | id in dlq && Selects(dlq[id], queue, sel, id);
      assert moved == Selection(db, queue, sel);
      if moved * task.Keys != {} {
        return Violation;
      }
      var rows := MoveBack(moved, now);
      task := task + rows;
      dlq := dlq - moved;
      return Count(|moved|);
    }

    /** The rows the moving statement inserts. */
    method MoveBack(moved: set<TaskId>, now: Time) returns (rows: map<TaskId, TaskRow>)
      requires moved <= dlq.Keys
      ensures rows == MovedRows(View(), moved, now)
    {
      rows := map id | id in moved ::
        TaskRow(dlq[id].queue, dlq[id].handlerRef, dlq[id].body, dlq[id].createdAt, Pending, 0, dlq[id].redriveCount + 1,
                Some(now), None, None);
    }

    method Purge(queue: string, sel: Selector) returns (reply: Reply)
      modifies this
      ensures (View(), reply) == AfterPurge(old(View()), queue, sel)
    {
      if |sel.ids| == 0 && sel.filter.None? {
        PurgesNothing(View(), queue, sel);
        return Count(0);
      }
      var purged := set id | id in dlq && Selects(dlq[id], queue, sel, id);
      dlq, attempt := dlq - purged, attempt - purged;
      return Count(|purged|);
    }

    method PurgeSucceeded(queue: string, olderThan: Time) returns (reply: Reply)
      modifies this
      ensures (View(), reply) == AfterPurgeSucceeded(old(View()), queue, olderThan)
    {
      var purged := set id | id in task && task[id].queue == queue && task[id].status.Succeeded?
                             && FinishedBefore(View(), id, olderThan);
      task, attempt := task - purged, attempt - purged;
      return Count(|purged|);
    }

    /** UNION ALL over both tables; the first row wins. */
    method Get(id: TaskId) returns (found: Option<Task>)
      ensures found == Found(View(), id)
      ensures found.Some? <==> id in PR.Abs(View()).tasks
      ensures found.Some? ==> L.NormTask(found.value) == PR.Abs(View()).tasks[id].task
    {
      hide History, PR.Abs, L.NormTask;
      PR.FoundAbs(View(), id);
      if id !in task && id !in dlq {
        return None;
      }
      var attempts := LoadAttempts(RowsOf(attempt, id));
      if id in task {
        return Some(LiveEnvelope(task[id], attempts));
      }
      return Some(DeadEnvelope(dlq[id], attempts));
    }

    /** The rows the list query selects, in no particular order. */
    method CollectDead(queue: string, f: DlqFilter, after: Option<Key>) returns (matched: seq<Key>)
      ensures Distinct(matched)
      ensures Elements(matched) == Beyond(DlqKeys(View(), queue, f), after)
    {
      hide Matches, Less;
      matched := [];
      var rest := dlq.Keys;
      while rest != {}
        invariant rest <= dlq.Keys
        invariant Distinct(matched)
        invariant forall k :: k in matched <==>
                    && k.id in dlq && k.id !in rest && InDlq(View(), queue, f, k.id)
                    && k.at == dlq[k.id].deadAt && (after.Some? ==> Less(after.value, k))
        decreases rest
      {
        var id :| id in rest;
        rest := rest - {id};
        var k := Key(dlq[id].deadAt, id);
        if dlq[id].queue == queue && Matches(dlq[id], f) && (after.Some? ==> Less(after.value, k)) {
          matched := matched + [k];
        }
      }
    }

    /** One row more than the page is fetched, to see whether a further page exists. */
    method DLQList(queue: string, f: DlqFilter, includeAttempts: bool, cursor: string, limit: int) returns (reply: ListReply)
      ensures PgPaging.Lists(View(), queue, f, includeAttempts, cursor, limit, reply)
    {
      hide DecodeCursor, EncodeCursor, Listing, Sort, DlqKeys, Beyond, EntryOf;
      var after := DecodeCursor(cursor);
      if after.None? {
        return StaleCursor;
      }
      var matched := CollectDead(queue, f, after.value);
      SortIsListing(matched);
      var collected := Take(Sort(matched), PageLimit(limit) + 1);
      var next := "";
      if |collected| > PageLimit(limit) {
        collected := collected[..PageLimit(limit)];
        next := EncodeCursor(collected[|collected| - 1]);
      }
      assert collected == PageOf(DlqKeys(View(), queue, f), after.value, PageLimit(limit));
      PageInTable(View(), queue, f, after.value, PageLimit(limit));
      var out := Entries(collected, includeAttempts);
      return Page(out, next);
    }

    method Entries(keys: seq<Key>, includeAttempts: bool) returns (out: seq<Entry>)
      requires forall k :: k in keys ==> k.id in dlq
      ensures |out| == |keys|
      ensures forall i :: 0 <= i < |keys| ==> keys[i].id in dlq && out[i] == EntryOf(View(), keys[i], includeAttempts)
    {
      hide History;
      out := [];
      for i := 0 to |keys|
        invariant |out| == i
        invariant forall j :: 0 <= j < i ==> keys[j].id in dlq && out[j] == EntryOf(View(), keys[j], includeAttempts)
      {
        assert keys[i] in keys;
        var id := keys[i].id;
        var attempts := [];
        if includeAttempts {
          attempts := LoadAttempts(RowsOf(attempt, id));
        }
        out := out + [Entry(id, DeadEnvelope(dlq[id], attempts))];
      }
    }
  }

  lemma {:induction false} InsertStuck(att: AttemptTable, id: TaskId, attempts: seq<Attempt>, n: nat)
    requires n <= |attempts| && InsertAll(att, id, attempts[..n]) == None
    ensures InsertAll(att, id, attempts) == None
    decreases |attempts|
  {
    if n < |attempts| {
      assert attempts[..|attempts| - 1][..n] == attempts[..n];
      InsertStuck(att, id, attempts[..|attempts| - 1], n);
    } else {
      assert attempts[..n] == attempts;
    }
  }

  lemma RedrivesNothing(db: Db, queue: string, sel: Selector, now: Time)
    requires |sel.ids| == 0 && sel.filter.None?
    ensures AfterRedrive(db, queue, sel, now) == (db, Count(0))
  {
    hide MovedRows, Selection;
    SelectionEmpty(db, queue, sel);
    NoRowsMoved(db, now);
    assert db.task + map[] == db.task && db.dlq - {} == db.dlq;
  }

  lemma NoRowsMoved(db: Db, now: Time)
    ensures MovedRows(db, {}, now) == map[]
  {
  }

  lemma PurgesNothing(db: Db, queue: string, sel: Selector)
    requires |sel.ids| == 0 && sel.filter.None?
    ensures AfterPurge(db, queue, sel) == (db, Count(0))
  {
    hide Selection;
    SelectionEmpty(db, queue, sel);
    assert db.dlq - {} == db.dlq && db.attempt - {} == db.attempt;
  }

  lemma SelectionEmpty(db: Db, queue: string, sel: Selector)
    requires |sel.ids| == 0 && sel.filter.None?
    ensures Selection(db, queue, sel) == {}
  {
  }

  lemma PageInTable(db: Db, queue: string, f: DlqFilter, after: Option<Key>, limit: nat)
    requires limit > 0
    ensures forall k :: k in PageOf(DlqKeys(db, queue, f), after, limit) ==> k.id in db.dlq
  {
    hide PageOf, Beyond;
    PageFacts(DlqKeys(db, queue, f), after, limit);
    PageAfterCursor(DlqKeys(db, queue, f), after, PageOf(DlqKeys(db, queue, f), after, limit));
  }

  /** COALESCE(MAX(attempt_no), 0) + 1. */
  method NextNumber(rows: Rows) returns (no: int)
    ensures no == MaxNo(rows) + 1
  {
    hide Listing;
    var rest := NoKeys(rows);
    var max := 0;
    var any := false;
    while rest != {}
      invariant rest <= NoKeys(rows)
      invariant any <==> rest != NoKeys(rows)
      invariant !any ==> max == 0
      invariant any ==> max in rows
      invariant forall n :: n in rows && Key(n, "") !in rest ==> any && n <= max
      decreases rest
    {
      var k :| k in rest;
      rest := rest - {k};
      if !any || k.at > max {
        max := k.at;
      }
      any := true;
    }
    if !any {
      assert NoKeys(rows) == {} && Listing(NoKeys(rows)) == [];
    }
    return max + 1;
  }

  /** SELECT ... ORDER BY attempt_no. */
  method LoadAttempts(rows: Rows) returns (history: seq<Attempt>)
    ensures history == History(rows)
  {
    hide Listing, Sort;
    var rest := NoKeys(rows);
    var nos := [];
    while rest != {}
      invariant rest <= NoKeys(rows)
      invariant Distinct(nos)
      invariant forall k :: k in nos <==> k in NoKeys(rows) && k !in rest
      decreases rest
    {
      var k :| k in rest;
      rest := rest - {k};
      nos := nos + [k];
    }
    assert Elements(nos) == NoKeys(rows);
    SortIsListing(nos);
    nos := Sort(nos);
    ListedNos(rows);
    return AtNos(rows, nos);
  }
}
