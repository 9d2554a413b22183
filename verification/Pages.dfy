/** What one page of a dead-letter listing shows, in either store: in terms of the tasks held
    and of what a reader of a single task would get. */
module Pages {
  import opened Spi
  import opened Ordering
  import opened Paging
  import Base64
  import Decimal
  import MM = MemModel
  import MP = MemPaging
  import MR = MemRefines
  import P = Provenance
  import PM = PgModel
  import PP = PgPaging
  import PR = PgRefines

  ghost function KeysAt(ids: set<TaskId>, at: map<TaskId, int>): set<Key>
    requires ids <= at.Keys
  {
    set id | id in ids :: Key(at[id], id)
  }

  /** Listed before: at an earlier place, or at the same one with a smaller id. */
  predicate Precedes(at: map<TaskId, int>, id: TaskId, other: TaskId)
    requires id in at && other in at
  {
    at[id] < at[other] || (at[id] == at[other] && StrLess(id, other))
  }

  /** A page of so many of the tasks that qualify: the first ones, in order, and a next cursor
      exactly if some are left. */
  ghost predicate Shows(ids: set<TaskId>, at: map<TaskId, int>, size: nat, reply: ListReply) {
    && reply.Page? && ids <= at.Keys
    && |reply.entries| == Min(size, |ids|)
    && (forall e :: e in reply.entries ==> e.id in ids)
    && (forall i, j :: 0 <= i < j < |reply.entries| ==> Precedes(at, reply.entries[i].id, reply.entries[j].id))
    && (forall e, id :: e in reply.entries && id in ids && id !in EntryIds(reply.entries) ==> Precedes(at, e.id, id))
    && (reply.next == "" <==> |ids| <= size)
  }

  lemma FirstOfListing(ids: set<TaskId>, at: map<TaskId, int>, size: nat, reply: ListReply)
    requires ids <= at.Keys && reply.Page? && (reply.next == "" <==> |Listing(KeysAt(ids, at))| <= size)
    requires var keys := Take(Listing(KeysAt(ids, at)), size);
             |reply.entries| == |keys| && forall i :: 0 <= i < |keys| ==> reply.entries[i].id == keys[i].id
    ensures Shows(ids, at, size, reply)
  {
    hide Listing, StrLess;
    var all := Listing(KeysAt(ids, at));
    MR.ImageSize(ids, at);
    KeysPlaced(ids, at);
    forall i | 0 <= i < |reply.entries| ensures reply.entries[i].id in ids && all[i] == Key(at[reply.entries[i].id], reply.entries[i].id) {
      assert all[i].id in ids;
    }
    forall e | e in reply.entries ensures e.id in ids {
      var i :| 0 <= i < |reply.entries| && reply.entries[i] == e;
    }
    forall e, id | e in reply.entries && id in ids && id !in EntryIds(reply.entries) ensures Precedes(at, e.id, id) {
      var i :| 0 <= i < |reply.entries| && reply.entries[i] == e;
      var j := PlaceOf(ids, at, id);
      assert forall n :: 0 <= n < |reply.entries| ==> EntryIds(reply.entries)[n] == all[n].id;
      assert Less(all[i], all[j]);
    }
  }

  lemma KeysPlaced(ids: set<TaskId>, at: map<TaskId, int>)
    requires ids <= at.Keys
    ensures var all := Listing(KeysAt(ids, at));
            Sorted(all) && forall i :: 0 <= i < |all| ==> all[i].id in ids && all[i].at == at[all[i].id]
  {
    hide Listing;
    var all := Listing(KeysAt(ids, at));
    forall i | 0 <= i < |all| ensures all[i].id in ids && all[i].at == at[all[i].id] {
      assert all[i] in Elements(all);
    }
  }

  lemma PlaceOf(ids: set<TaskId>, at: map<TaskId, int>, id: TaskId) returns (j: nat)
    requires ids <= at.Keys && id in ids
    ensures var all := Listing(KeysAt(ids, at)); j < |all| && all[j] == Key(at[id], id)
  {
    hide Listing;
    var all := Listing(KeysAt(ids, at));
    assert Key(at[id], id) in Elements(all);
    j :| 0 <= j < |all| && all[j] == Key(at[id], id);
  }

  // ---------- the in-memory store ----------

  /** The dead tasks of a queue that satisfy a filter and came in after a position. */
  ghost function MemDead(m: MM.State, queue: string, f: DlqFilter, after: nat): set<TaskId> {
    set id | id in m.tasks && m.tasks[id].env.status == Dead && m.tasks[id].env.queue == queue && m.tasks[id].dlqSeq > after
             && P.InFilter(m.tasks[id].env, m.tasks[id].terminalAt, f)
  }

  /** A page of the in-memory store shows the dead tasks past the cursor in the order of their
      burial, each as it is held, without its attempts unless they were asked for. */
  lemma MemPage(m: MM.State, queue: string, f: DlqFilter, includeAttempts: bool, cursor: string, limit: int, reply: ListReply)
    requires MP.Lists(m, queue, f, includeAttempts, cursor, limit, reply) && MP.DecodeCursor(cursor).Some?
    ensures Shows(MemDead(m, queue, f, MP.DecodeCursor(cursor).value), map id | id in m.tasks :: m.tasks[id].dlqSeq,
                  if limit <= 0 then 100 else limit, reply)
    ensures forall e :: e in reply.entries ==>
              && e.id in m.tasks
              && (includeAttempts ==> e.task == m.tasks[e.id].env)
              && (!includeAttempts ==> e.task.attempts == [] && e.task.(attempts := m.tasks[e.id].env.attempts) == m.tasks[e.id].env)
  {
    hide MP.DecodeCursor, MP.EncodeCursor, Listing, Shows, MP.DlqKeys, MemDead;
    var after := MP.DecodeCursor(cursor).value;
    MemKeys(m, queue, f, after);
    FirstOfListing(MemDead(m, queue, f, after), map id | id in m.tasks :: m.tasks[id].dlqSeq, if limit <= 0 then 100 else limit, reply);
  }

  lemma MemKeys(m: MM.State, queue: string, f: DlqFilter, after: nat)
    ensures MemDead(m, queue, f, after) <= m.tasks.Keys
    ensures MP.PastSeq(MP.DlqKeys(m, queue, f), after) ==
            KeysAt(MemDead(m, queue, f, after), map id | id in m.tasks :: m.tasks[id].dlqSeq)
  {
    hide MatchesFilter, P.InFilter;
    forall id | id in m.tasks ensures MM.Matches(m.tasks[id], f) <==> P.InFilter(m.tasks[id].env, m.tasks[id].terminalAt, f) {
      P.FilterIs(m.tasks[id].env, m.tasks[id].terminalAt, f);
    }
    var past, dead := MP.PastSeq(MP.DlqKeys(m, queue, f), after), MemDead(m, queue, f, after);
    var keys := KeysAt(dead, map id | id in m.tasks :: m.tasks[id].dlqSeq);
    forall k ensures k in past <==> k in keys {
      assert k in past <==> k.id in dead && k.at == m.tasks[k.id].dlqSeq;
    }
  }

  // ---------- the relational store ----------

  /** The dead-letter rows of a queue that satisfy a filter, judged by the task a reader gets, and
      come after a place in the (dead_lettered_at, id) order. */
  ghost function PgDead(db: PM.Db, queue: string, f: DlqFilter, after: Option<Key>): set<TaskId> {
    set id | id in db.dlq && db.dlq[id].queue == queue && P.InFilter(DeadTask(db, id), db.dlq[id].deadAt, f)
             && (after.Some? ==> Less(after.value, Key(db.dlq[id].deadAt, id)))
  }

  /** The envelope of a dead-letter row with its whole history. */
  ghost function DeadTask(db: PM.Db, id: TaskId): Task
    requires id in db.dlq
  {
    PM.DeadEnvelope(db.dlq[id], PM.History(PM.RowsOf(db.attempt, id)))
  }

  /** A page of the relational store shows the dead tasks past the cursor by time of death, each
      as a reader of the task gets it, without its attempts unless they were asked for. */
  lemma PgPage(db: PM.Db, queue: string, f: DlqFilter, includeAttempts: bool, cursor: string, limit: int, reply: ListReply)
    requires PR.Inv(db) && PP.Lists(db, queue, f, includeAttempts, cursor, limit, reply) && PP.DecodeCursor(cursor).Some?
    ensures Shows(PgDead(db, queue, f, PP.DecodeCursor(cursor).value), map id | id in db.dlq :: db.dlq[id].deadAt,
                  if limit <= 0 then 100 else limit, reply)
    ensures forall e :: e in reply.entries ==>
              PM.Found(db, e.id).Some? &&
              var t := PM.Found(db, e.id).value;
              && t.status == Dead
              && (includeAttempts ==> e.task == t)
              && (!includeAttempts ==> e.task.attempts == [] && e.task.(attempts := t.attempts) == t)
  {
    hide PP.DecodeCursor, PP.EncodeCursor, Listing, Shows, PP.DlqKeys, PgDead, PR.Inv, PP.EntryOf, PM.Found;
    var after := PP.DecodeCursor(cursor).value;
    PgKeys(db, queue, f, after);
    EntriesListed(db, includeAttempts);
    FirstOfListing(PgDead(db, queue, f, after), map id | id in db.dlq :: db.dlq[id].deadAt, if limit <= 0 then 100 else limit, reply);
  }

  lemma EntriesListed(db: PM.Db, includeAttempts: bool)
    requires PR.Inv(db)
    ensures forall k: Key :: k.id in db.dlq ==> PM.Found(db, k.id).Some?
    ensures forall k: Key :: k.id in db.dlq ==>
              var t, e := PM.Found(db, k.id).value, PP.EntryOf(db, k, includeAttempts);
              && e.id == k.id && t.status == Dead
              && (includeAttempts ==> e.task == t)
              && (!includeAttempts ==> e.task.attempts == [] && e.task.(attempts := t.attempts) == t)
  {
    hide PR.GoodDead, PR.GoodRow, PR.Numbered, PM.History;
  }

  lemma PgKeys(db: PM.Db, queue: string, f: DlqFilter, after: Option<Key>)
    requires PR.Inv(db)
    ensures PgDead(db, queue, f, after) <= db.dlq.Keys
    ensures Beyond(PP.DlqKeys(db, queue, f), after) ==
            KeysAt(PgDead(db, queue, f, after), map id | id in db.dlq :: db.dlq[id].deadAt)
  {
    hide MatchesFilter, P.InFilter, PM.Matches, PR.GoodDead, PR.GoodRow, PR.Numbered, PM.History, Less;
    forall id | id in db.dlq ensures PM.Matches(db.dlq[id], f) <==> P.InFilter(DeadTask(db, id), db.dlq[id].deadAt, f) {
      RowFilter(db.dlq[id], PM.RowsOf(db.attempt, id), f);
    }
    var past, dead := Beyond(PP.DlqKeys(db, queue, f), after), PgDead(db, queue, f, after);
    var keys := KeysAt(dead, map id | id in db.dlq :: db.dlq[id].deadAt);
    forall k ensures k in past <==> k in keys {
      assert k in past <==> k.id in dead && k.at == db.dlq[k.id].deadAt;
    }
  }

  lemma RowFilter(row: PM.DlqRow, rows: PM.Rows, f: DlqFilter)
    requires PR.GoodDead(row, rows)
    ensures PM.Matches(row, f) <==> P.InFilter(PM.DeadEnvelope(row, PM.History(rows)), row.deadAt, f)
  {
    hide PM.History;
  }

  // ---------- cursors ----------

  /** A cursor says which store it is of, and the other store takes it for stale. */
  lemma CursorsKeepApart(seqNo: nat, k: Key)
    requires Base64.IsBytes(k.id)
    ensures Base64.Decode(MP.EncodeCursor(seqNo)) == Some("mc1:" + Decimal.Format(seqNo))
    ensures Base64.Decode(PP.EncodeCursor(k)) == Some("pgdlq1:" + Decimal.FormatSigned(k.at) + ":" + k.id)
    ensures MP.DecodeCursor(PP.EncodeCursor(k)) == None && PP.DecodeCursor(MP.EncodeCursor(seqNo)) == None
  {
    hide Base64.Encode, Base64.Decode;
    Base64.RoundTrip(MP.RawCursor(seqNo));
    Base64.RoundTrip(PP.RawCursor(k));
    assert MP.RawCursor(seqNo)[0] == 'm' && PP.RawCursor(k)[0] == 'p';
  }
}
