/** Listing the dead-letter table: keyset paging on (dead_lettered_at, id). */
module PgPaging {
  import opened Spi
  import opened Ordering
  import opened Paging
  import opened PgModel
  import Base64
  import Decimal

  const CURSOR_PREFIX := "pgdlq1:"
  const INT64_LIMIT := 0x8000_0000_0000_0000

  predicate InInt64(n: int) { -INT64_LIMIT <= n < INT64_LIMIT }

  // ---------- cursor codec ----------

  function RawCursor(k: Key): (raw: string)
    ensures raw != ""
  {
    CURSOR_PREFIX + Decimal.FormatSigned(k.at) + ":" + k.id
  }

  function EncodeCursor(k: Key): (c: string)
    ensures c != ""
  {
    Base64.Encode(RawCursor(k))
  }

  /** Position of the first occurrence, or the length when there is none. */
  function IndexOf(s: string, c: char): (i: nat)
    ensures i <= |s| && (i < |s| ==> s[i] == c) && c !in s[..i]
  {
    if s == "" || s[0] == c then 0
    else
      var i := IndexOf(s[1..], c);
      assert s[..i + 1] == [s[0]] + s[1..][..i];
      i + 1
  }

  lemma {:induction false} FirstSeparator(head: string, tail: string, c: char)
    requires c !in head
    ensures IndexOf(head + [c] + tail, c) == |head|
  {
    if head != "" {
      assert (head + [c] + tail)[1..] == head[1..] + [c] + tail;
      FirstSeparator(head[1..], tail, c);
    }
  }

  /** None is a stale cursor; Some(None) starts from the beginning. */
  function DecodeCursor(c: string): Option<Option<Key>> {
    if c == "" then Some(None)
    else
      match Base64.Decode(c)
      case None => None
      case Some(raw) => ReadCursor(raw)
  }

  function ReadCursor(raw: string): Option<Option<Key>> {
    if !(CURSOR_PREFIX <= raw) then None
    else
      var rest := raw[|CURSOR_PREFIX|..];
      var sep := IndexOf(rest, ':');
      if sep == |rest| then None
      else
        match Decimal.ParseSigned(rest[..sep])
        case None => None
        case Some(n) => if InInt64(n) then Some(Some(Key(n, rest[sep + 1..]))) else None
  }

  /** The id may itself hold the separator. */
  lemma CursorRoundTrip(k: Key)
    requires InInt64(k.at) && Base64.IsBytes(k.id)
    ensures DecodeCursor(EncodeCursor(k)) == Some(Some(k))
  {
    hide Base64.Encode, Base64.Decode;
    Base64.RoundTrip(RawCursor(k));
    ReadRaw(k);
  }

  lemma ReadRaw(k: Key)
    requires InInt64(k.at)
    ensures ReadCursor(RawCursor(k)) == Some(Some(k))
  {
    var number := Decimal.FormatSigned(k.at);
    var rest := number + ":" + k.id;
    assert RawCursor(k) == CURSOR_PREFIX + rest;
    assert RawCursor(k)[|CURSOR_PREFIX|..] == rest;
    FirstSeparator(number, k.id, ':');
    assert rest[..|number|] == number && rest[|number| + 1..] == k.id;
    Decimal.ParseFormatSigned(k.at);
  }

  // ---------- one page ----------

  predicate InDlq(db: Db, queue: string, f: DlqFilter, id: TaskId) {
    id in db.dlq && db.dlq[id].queue == queue && Matches(db.dlq[id], f)
  }

  function DlqKeys(db: Db, queue: string, f: DlqFilter): set<Key> {
    set id | id in db.dlq && InDlq(db, queue, f, id) :: Key(db.dlq[id].deadAt, id)
  }

  ghost function EntryOf(db: Db, k: Key, includeAttempts: bool): Entry
    requires k.id in db.dlq
  {
    Entry(k.id, DeadEnvelope(db.dlq[k.id], if includeAttempts then History(RowsOf(db.attempt, k.id)) else []))
  }

  /** The reply to a list call. */
  ghost predicate Lists(db: Db, queue: string, f: DlqFilter, includeAttempts: bool, cursor: string, limit: int, reply: ListReply) {
    match DecodeCursor(cursor)
    case None => reply == StaleCursor
    case Some(after) =>
      var keys := PageOf(DlqKeys(db, queue, f), after, PageLimit(limit));
      && reply.Page?
      && |reply.entries| == |keys|
      && (forall i :: 0 <= i < |keys| ==>
            keys[i].id in db.dlq && reply.entries[i] == EntryOf(db, keys[i], includeAttempts))
      && if IsLast(DlqKeys(db, queue, f), after, PageLimit(limit)) then reply.next == ""
         else keys != [] && reply.next == EncodeCursor(keys[|keys| - 1])
  }

  // ---------- whole sessions ----------

  /** The databases the pages were read from may differ in any way: whatever the calls made
      in between did. */
  datatype ListSession = ListSession(dbs: seq<Db>, cursors: seq<string>, limits: seq<int>, replies: seq<ListReply>)

  /** Death times that fit a cursor; ids are byte strings. */
  predicate Representable(db: Db) { forall id :: id in db.dlq ==> InInt64(db.dlq[id].deadAt) && Base64.IsBytes(id) }

  ghost predicate IsListSession(ls: ListSession, queue: string, f: DlqFilter, includeAttempts: bool) {
    && 0 < |ls.dbs| == |ls.cursors| == |ls.limits| == |ls.replies|
    && ls.cursors[0] == ""
    && (forall i :: 0 <= i < |ls.dbs| ==>
          && Representable(ls.dbs[i])
          && Lists(ls.dbs[i], queue, f, includeAttempts, ls.cursors[i], ls.limits[i], ls.replies[i])
          && ls.replies[i].Page?
          && (ls.replies[i].next == "" <==> i == |ls.dbs| - 1))
    && (forall i :: 0 <= i < |ls.dbs| - 1 ==> ls.cursors[i + 1] == ls.replies[i].next)
  }

  function CursorKey(cursor: string): Option<Key> {
    if DecodeCursor(cursor).Some? then DecodeCursor(cursor).value else None
  }

  ghost function KeysOf(ls: ListSession, queue: string, f: DlqFilter, i: nat): seq<Key>
    requires i < |ls.dbs| == |ls.cursors| == |ls.limits|
  {
    PageOf(DlqKeys(ls.dbs[i], queue, f), CursorKey(ls.cursors[i]), PageLimit(ls.limits[i]))
  }

  /** The session in terms of keys. */
  ghost function AsSession(ls: ListSession, queue: string, f: DlqFilter): Session
    requires |ls.dbs| == |ls.cursors| == |ls.limits|
  {
    Session(
      seq(|ls.dbs|, i requires 0 <= i < |ls.dbs| => DlqKeys(ls.dbs[i], queue, f)),
      seq(|ls.dbs|, i requires 0 <= i < |ls.dbs| => CursorKey(ls.cursors[i])),
      seq(|ls.dbs|, i requires 0 <= i < |ls.dbs| => PageLimit(ls.limits[i])),
      seq(|ls.dbs|, i requires 0 <= i < |ls.dbs| => KeysOf(ls, queue, f, i)))
  }

  /** A page reply, taken apart. */
  lemma ReplyFacts(db: Db, queue: string, f: DlqFilter, includeAttempts: bool, cursor: string, limit: int, reply: ListReply)
    requires Lists(db, queue, f, includeAttempts, cursor, limit, reply) && reply.Page?
    ensures var keys := PageOf(DlqKeys(db, queue, f), CursorKey(cursor), PageLimit(limit));
            && (IsLast(DlqKeys(db, queue, f), CursorKey(cursor), PageLimit(limit)) <==> reply.next == "")
            && PageIds(reply) == IdsOf(keys)
            && (reply.next != "" ==> keys != [] && reply.next == EncodeCursor(keys[|keys| - 1]))
  {
    hide PageOf, IsLast, EncodeCursor, DecodeCursor, DlqKeys;
  }

  lemma PageAgrees(ls: ListSession, queue: string, f: DlqFilter, includeAttempts: bool, i: nat)
    requires IsListSession(ls, queue, f, includeAttempts) && i < |ls.dbs|
    ensures IsLast(DlqKeys(ls.dbs[i], queue, f), CursorKey(ls.cursors[i]), PageLimit(ls.limits[i])) <==> i == |ls.dbs| - 1
    ensures PageIds(ls.replies[i]) == IdsOf(KeysOf(ls, queue, f, i))
    ensures i < |ls.dbs| - 1 ==>
              && KeysOf(ls, queue, f, i) != []
              && ls.cursors[i + 1] == EncodeCursor(KeysOf(ls, queue, f, i)[|KeysOf(ls, queue, f, i)| - 1])
  {
    hide PageOf, IsLast, EncodeCursor, CursorKey, DlqKeys, Representable, Lists, PageIds;
    ReplyFacts(ls.dbs[i], queue, f, includeAttempts, ls.cursors[i], ls.limits[i], ls.replies[i]);
  }

  lemma CursorAgrees(ls: ListSession, queue: string, f: DlqFilter, includeAttempts: bool, i: nat)
    requires IsListSession(ls, queue, f, includeAttempts) && i < |ls.dbs| - 1
    ensures KeysOf(ls, queue, f, i) != []
    ensures CursorKey(ls.cursors[i + 1]) == Some(KeysOf(ls, queue, f, i)[|KeysOf(ls, queue, f, i)| - 1])
  {
    hide PageOf, IsLast, EncodeCursor, DecodeCursor, DlqKeys, Representable, Lists, InInt64;
    PageAgrees(ls, queue, f, includeAttempts, i);
    var keys := KeysOf(ls, queue, f, i);
    var last := keys[|keys| - 1];
    PageFacts(DlqKeys(ls.dbs[i], queue, f), CursorKey(ls.cursors[i]), PageLimit(ls.limits[i]));
    PageAfterCursor(DlqKeys(ls.dbs[i], queue, f), CursorKey(ls.cursors[i]), keys);
    assert last in keys;
    KeyRepresentable(ls.dbs[i], queue, f, last);
    CursorRoundTrip(last);
  }

  lemma KeyRepresentable(db: Db, queue: string, f: DlqFilter, k: Key)
    requires Representable(db) && k in DlqKeys(db, queue, f)
    ensures InInt64(k.at) && Base64.IsBytes(k.id)
  {
    hide Base64.IsBytes;
  }

  lemma StartCursor()
    ensures CursorKey("") == None
  {
  }

  lemma IsKeySession(ls: ListSession, queue: string, f: DlqFilter, includeAttempts: bool)
    requires IsListSession(ls, queue, f, includeAttempts)
    ensures |ls.dbs| == |ls.cursors| == |ls.limits| && IsSession(AsSession(ls, queue, f))
  {
    hide PageOf, IsLast, DlqKeys, CursorKey, IsListSession;
    Lengths(ls, queue, f, includeAttempts);
    FirstCursor(ls, queue, f, includeAttempts);
    var s := AsSession(ls, queue, f);
    StartCursor();
    forall i | 0 <= i < |s.pages| ensures IsLast(s.views[i], s.cursors[i], s.limits[i]) <==> i == |s.pages| - 1 {
      PageAgrees(ls, queue, f, includeAttempts, i);
    }
    forall i | 0 <= i < |s.pages| - 1
      ensures s.pages[i] != [] && s.cursors[i + 1] == Some(s.pages[i][|s.pages[i]| - 1])
    {
      CursorAgrees(ls, queue, f, includeAttempts, i);
    }
  }

  lemma FirstCursor(ls: ListSession, queue: string, f: DlqFilter, includeAttempts: bool)
    requires IsListSession(ls, queue, f, includeAttempts)
    ensures ls.cursors[0] == ""
  {
    hide Lists, Representable;
  }

  /** The task is in the queue's dead letters, matches, and keeps its death time throughout. */
  predicate Stays(dbs: seq<Db>, queue: string, f: DlqFilter, id: TaskId, at: Time) {
    forall i :: 0 <= i < |dbs| ==> InDlq(dbs[i], queue, f, id) && dbs[i].dlq[id].deadAt == at
  }

  /** Listing to the end, whatever happens in between: what is listed comes in order of death
      time and id, and every task that stays throughout is listed exactly once. */
  lemma ListSessionComplete(ls: ListSession, queue: string, f: DlqFilter, includeAttempts: bool)
    requires IsListSession(ls, queue, f, includeAttempts)
    ensures |ls.dbs| == |ls.cursors| == |ls.limits|
    ensures Sorted(Flatten(AsSession(ls, queue, f).pages))
    ensures ListedIds(ls.replies) == IdsOf(Flatten(AsSession(ls, queue, f).pages))
    ensures forall id, at :: Stays(ls.dbs, queue, f, id, at) ==> IdOnce(ListedIds(ls.replies), id)
  {
    hide IsListSession, AsSession, Flatten, Sorted, Stays, IdOnce, ListedIds, KeysListedOnce;
    IsKeySession(ls, queue, f, includeAttempts);
    Lengths(ls, queue, f, includeAttempts);
    SessionListsKeys(AsSession(ls, queue, f));
    AllListedIds(ls, queue, f, includeAttempts);
    forall id, at | Stays(ls.dbs, queue, f, id, at) ensures IdOnce(ListedIds(ls.replies), id) {
      StayingIdOnce(ls, queue, f, id, at);
    }
  }

  lemma Lengths(ls: ListSession, queue: string, f: DlqFilter, includeAttempts: bool)
    requires IsListSession(ls, queue, f, includeAttempts)
    ensures 0 < |ls.dbs| == |ls.limits| == |ls.cursors| == |ls.replies|
  {
    hide Lists, Representable;
  }

  lemma AllListedIds(ls: ListSession, queue: string, f: DlqFilter, includeAttempts: bool)
    requires IsListSession(ls, queue, f, includeAttempts)
    requires |ls.dbs| == |ls.cursors| == |ls.limits| == |ls.replies|
    ensures ListedIds(ls.replies) == IdsOf(Flatten(AsSession(ls, queue, f).pages))
  {
    hide IsListSession, Flatten, ListedIds, KeysOf, DlqKeys, CursorKey, PageIds;
    var pages := AsSession(ls, queue, f).pages;
    forall i | 0 <= i < |pages| ensures PageIds(ls.replies[i]) == IdsOf(pages[i]) {
      PageAgrees(ls, queue, f, includeAttempts, i);
    }
    ListedIdsAre(ls.replies, pages);
  }

  lemma StayingIdOnce(ls: ListSession, queue: string, f: DlqFilter, id: TaskId, at: Time)
    requires |ls.dbs| == |ls.cursors| == |ls.limits| && Stays(ls.dbs, queue, f, id, at) && ls.dbs != []
    requires KeysListedOnce(AsSession(ls, queue, f))
    ensures IdOnce(IdsOf(Flatten(AsSession(ls, queue, f).pages)), id)
  {
    hide KeysOf, CursorKey, DlqKeys, Stays, Throughout, ExactlyOnce, IdsOf;
    var s := AsSession(ls, queue, f);
    var all, k := Flatten(s.pages), Key(at, id);
    StayingKey(ls.dbs, queue, f, id, at);
    forall i | 0 <= i < |s.views| ensures k in s.views[i] { }
    ThroughoutIf(s.views, k);
    forall other | other in all ensures other.id == id ==> other == k {
      var i :| 0 <= i < |s.pages| && other in s.pages[i];
      assert other in s.views[i];
    }
    OneIdOfKeys(all, k);
  }

  /** A task that stays is listed in every view under one key and no other. */
  lemma StayingKey(dbs: seq<Db>, queue: string, f: DlqFilter, id: TaskId, at: Time)
    requires Stays(dbs, queue, f, id, at)
    ensures forall i :: 0 <= i < |dbs| ==> Key(at, id) in DlqKeys(dbs[i], queue, f)
    ensures forall i, other :: 0 <= i < |dbs| && other in DlqKeys(dbs[i], queue, f) && other.id == id ==> other == Key(at, id)
  {
    hide Matches;
    forall i | 0 <= i < |dbs| ensures Key(at, id) in DlqKeys(dbs[i], queue, f) {
      assert InDlq(dbs[i], queue, f, id);
    }
  }
}
