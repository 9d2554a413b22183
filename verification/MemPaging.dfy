/** Listing the dead-letter queue of the in-memory store: cursors carry the dead-letter
    sequence number of the last entry returned. */
module MemPaging {
  import opened Spi
  import opened Ordering
  import opened MemModel
  import opened Paging
  import Base64
  import Decimal
  import MR = MemRefines

  const CURSOR_PREFIX := "mc1:"
  const UINT64_LIMIT: nat := 0x1_0000_0000_0000_0000

  // ---------- cursor codec ----------

  function RawCursor(seqNo: nat): (raw: string)
    ensures raw != "" && Base64.IsBytes(raw)
  {
    CURSOR_PREFIX + Decimal.Format(seqNo)
  }

  function EncodeCursor(seqNo: nat): (c: string)
    ensures c != ""
  {
    Base64.Encode(RawCursor(seqNo))
  }

  /** The empty cursor starts from the beginning; None is a stale cursor. */
  function DecodeCursor(c: string): Option<nat> {
    if c == "" then Some(0)
    else
      match Base64.Decode(c)
      case None => None
      case Some(raw) => ReadCursor(raw)
  }

  function ReadCursor(raw: string): Option<nat> {
    if !(CURSOR_PREFIX <= raw) then None
    else
      match Decimal.Parse(raw[|CURSOR_PREFIX|..])
      case None => None
      case Some(n) => if n < UINT64_LIMIT then Some(n) else None
  }

  lemma CursorRoundTrip(seqNo: nat)
    requires seqNo < UINT64_LIMIT
    ensures DecodeCursor(EncodeCursor(seqNo)) == Some(seqNo)
  {
    hide Base64.Encode, Base64.Decode;
    var raw := RawCursor(seqNo);
    Base64.RoundTrip(raw);
    assert raw[|CURSOR_PREFIX|..] == Decimal.Format(seqNo);
    Decimal.ParseFormat(seqNo);
  }

  // ---------- one page ----------

  /** A matching dead record that has a place in the queue: one with a sequence number. */
  predicate Arrived(m: State, queue: string, f: DlqFilter, id: TaskId) {
    MatchesIn(m, queue, f, id) && m.tasks[id].dlqSeq > 0
  }

  ghost function DlqKeys(m: State, queue: string, f: DlqFilter): set<Key> {
    set id | id in m.tasks && Arrived(m, queue, f, id) :: Key(m.tasks[id].dlqSeq, id)
  }

  ghost function PastSeq(keys: set<Key>, after: nat): set<Key> {
    set k | k in keys && k.at > after
  }

  function EntryOf(m: State, k: Key, includeAttempts: bool): Entry
    requires k.id in m.tasks
  {
    var env := m.tasks[k.id].env;
    Entry(k.id, if includeAttempts then env else env.(attempts := []))
  }

  ghost function Listed(m: State, queue: string, f: DlqFilter, after: nat): seq<Key> {
    Listing(PastSeq(DlqKeys(m, queue, f), after))
  }

  lemma ListedKeys(m: State, queue: string, f: DlqFilter, after: nat)
    ensures forall k :: k in Listed(m, queue, f, after) <==>
              k in DlqKeys(m, queue, f) && k.at > after
    ensures forall k :: k in Listed(m, queue, f, after) ==> k.id in m.tasks && k.at == m.tasks[k.id].dlqSeq
    ensures Sorted(Listed(m, queue, f, after))
  {
    hide Listing, MatchesIn;
    assert forall k :: k in Listed(m, queue, f, after) <==> k in Elements(Listed(m, queue, f, after));
  }

  /** The reply to a list call. */
  ghost predicate Lists(m: State, queue: string, f: DlqFilter, includeAttempts: bool, cursor: string, limit: int, reply: ListReply) {
    match DecodeCursor(cursor)
    case None => reply == StaleCursor
    case Some(after) =>
      var all := Listed(m, queue, f, after);
      var keys := Take(all, PageLimit(limit));
      && reply.Page?
      && |reply.entries| == |keys|
      && (forall i :: 0 <= i < |keys| ==>
            keys[i].id in m.tasks && reply.entries[i] == EntryOf(m, keys[i], includeAttempts))
      && reply.next == if |all| > PageLimit(limit) then EncodeCursor(NatOf(keys[|keys| - 1].at)) else ""
  }

  function NatOf(n: int): nat { if n < 0 then 0 else n }

  // ---------- order of arrival ----------

  predicate Placed(m: State, id: TaskId) { id in m.tasks && m.tasks[id].env.status.Dead? && m.tasks[id].dlqSeq > 0 }

  /** Dead records carry distinct sequence numbers drawn from the counter. A task that was
      submitted dead has none. */
  ghost predicate Sequenced(m: State) {
    && (forall id :: Placed(m, id) ==> m.tasks[id].dlqSeq <= m.dlqSeq)
    && (forall id, other :: Placed(m, id) && Placed(m, other) && m.tasks[id].dlqSeq == m.tasks[other].dlqSeq ==> id == other)
  }

  /** Between two states: an old number still in use belongs to the task that had it. */
  ghost predicate Persists(m: State, m': State) {
    && m.dlqSeq <= m'.dlqSeq
    && (forall id :: Placed(m', id) && m'.tasks[id].dlqSeq <= m.dlqSeq ==>
          Placed(m, id) && m.tasks[id].dlqSeq == m'.tasks[id].dlqSeq)
  }

  /** No newly placed records: nothing to renumber. */
  ghost predicate FewerDead(m: State, m': State) {
    && m'.dlqSeq == m.dlqSeq
    && (forall id :: Placed(m', id) ==> Placed(m, id) && m.tasks[id].dlqSeq == m'.tasks[id].dlqSeq)
  }

  lemma FewerDeadKeeps(m: State, m': State)
    requires Sequenced(m) && FewerDead(m, m')
    ensures Sequenced(m') && Persists(m, m')
  {
  }

  lemma BurialKeepsSequence(m: State, id: TaskId, r: Record)
    requires Sequenced(m) && r.dlqSeq == m.dlqSeq + 1
    ensures var m' := Write(m, id, r).(dlqSeq := m.dlqSeq + 1); Sequenced(m') && Persists(m, m')
  {
  }

  lemma RedriveFewerDead(m: State, queue: string, sel: Selector, now: Time)
    ensures FewerDead(m, AfterRedrive(m, queue, sel, now).0)
  {
    hide Picks, PickCount;
  }

  lemma CallKeepsSequence(m: State, call: Call)
    requires Sequenced(m)
    ensures Sequenced(MR.Apply(m, call).0) && Persists(m, MR.Apply(m, call).0)
  {
    hide Sequenced, Persists, Taken, Picks, Selection, PickCount, MR.Grants, Aged, ClaimMany, Claim, Resolves;
    var m' := MR.Apply(m, call).0;
    match call
    case ClaimDue(queue, limit, lease, now) =>
      TakenIds(m, queue, limit, now);
      ClaimManyPointwise(m, Taken(m, queue, limit, now), lease, now);
      ClaimsKeepSequence(m, Taken(m, queue, limit, now), lease, now, m');
    case DeadLetter(id, token, a, now) =>
      if Resolves(m, id, token) {
        BurialInFlight(m, id, token);
        BurialKeepsSequence(m, id, Buried(m.tasks[id], a, m.dlqSeq + 1, now));
      } else {
        FewerDeadKeeps(m, m');
      }
    case Redrive(queue, sel, now) =>
      RedriveFewerDead(m, queue, sel, now);
      FewerDeadKeeps(m, m');
    case ExtendLease(id, token, _, _) => LiveWrite(m, call); FewerDeadKeeps(m, m');
    case Reschedule(id, token, _, _) => LiveWrite(m, call); FewerDeadKeeps(m, m');
    case Complete(id, token, _, _) => LiveWrite(m, call); FewerDeadKeeps(m, m');
    case _ => FewerDeadKeeps(m, m');
  }

  lemma BurialInFlight(m: State, id: TaskId, token: Token)
    requires Resolves(m, id, token)
    ensures id in m.tasks && m.tasks[id].env.status.InFlight?
  {
  }

  lemma LiveWrite(m: State, call: Call)
    requires call.ExtendLease? || call.Reschedule? || call.Complete?
    ensures FewerDead(m, MR.Apply(m, call).0)
  {
  }

  lemma ClaimsKeepSequence(m: State, keys: seq<Key>, lease: int, now: Time, m': State)
    requires Sequenced(m) && (forall k :: k in keys ==> k.id in m.tasks) && ClaimedAre(m, keys, lease, now, m')
    ensures Sequenced(m') && Persists(m, m')
  {
    hide Sequenced, Persists;
    forall id | id in m'.tasks && m'.tasks[id].env.status.Dead? ensures m'.tasks[id] == m.tasks[id] {
      if id in KeyIds(keys) {
        var i := MR.IdIndex(keys, id);
      }
    }
    FewerDeadKeeps(m, m');
  }

  ghost function AfterCalls(m: State, calls: seq<Call>): State
    decreases |calls|
  {
    if calls == [] then m else MR.Apply(AfterCalls(m, calls[..|calls| - 1]), calls[|calls| - 1]).0
  }

  lemma {:induction false} CallsKeepSequence(m: State, calls: seq<Call>)
    requires Sequenced(m)
    ensures Sequenced(AfterCalls(m, calls)) && Persists(m, AfterCalls(m, calls))
    decreases |calls|
  {
    hide MR.Apply;
    if calls != [] {
      var init, last := calls[..|calls| - 1], calls[|calls| - 1];
      CallsKeepSequence(m, init);
      CallKeepsSequence(AfterCalls(m, init), last);
    }
  }

  // ---------- sessions ----------

  /** A client lists to the end; before each further page any calls at all may happen. */
  datatype ListSession = ListSession(
    states: seq<State>,
    calls: seq<seq<Call>>,
    limits: seq<int>,
    cursors: seq<string>,
    replies: seq<ListReply>)

  ghost predicate IsListSession(ls: ListSession, queue: string, f: DlqFilter, includeAttempts: bool) {
    IsWalk(ls, queue, f, includeAttempts) && Sequenced(ls.states[0])
  }

  ghost predicate IsWalk(ls: ListSession, queue: string, f: DlqFilter, includeAttempts: bool) {
    && 0 < |ls.states| == |ls.limits| == |ls.cursors| == |ls.replies| == |ls.calls| + 1
    && ls.cursors[0] == ""
    && (forall i :: 0 <= i < |ls.states| ==>
          && ls.states[i].dlqSeq < UINT64_LIMIT
          && Lists(ls.states[i], queue, f, includeAttempts, ls.cursors[i], ls.limits[i], ls.replies[i]))
    && (forall i :: 0 <= i < |ls.calls| ==>
          && ls.states[i + 1] == AfterCalls(ls.states[i], ls.calls[i])
          && ls.replies[i].Page? && ls.replies[i].next != "" && ls.cursors[i + 1] == ls.replies[i].next)
    && ls.replies[|ls.replies| - 1].Page?
    && ls.replies[|ls.replies| - 1].next == ""
  }

  lemma {:induction false} SessionSequenced(ls: ListSession, queue: string, f: DlqFilter, includeAttempts: bool, i: nat)
    requires IsListSession(ls, queue, f, includeAttempts) && i < |ls.states|
    ensures Sequenced(ls.states[i])
    ensures i > 0 ==> Persists(ls.states[i - 1], ls.states[i])
    decreases i
  {
    hide Sequenced, Persists, Lists, AfterCalls;
    if i > 0 {
      SessionSequenced(ls, queue, f, includeAttempts, i - 1);
      CallsKeepSequence(ls.states[i - 1], ls.calls[i - 1]);
    }
  }

  /** The threshold a cursor stands for. */
  ghost function AfterOf(cursor: string): nat {
    if DecodeCursor(cursor).Some? then DecodeCursor(cursor).value else 0
  }

  ghost function KeysOf(ls: ListSession, queue: string, f: DlqFilter, i: nat): seq<Key>
    requires i < |ls.states| == |ls.cursors| == |ls.limits|
  {
    Take(Listed(ls.states[i], queue, f, AfterOf(ls.cursors[i])), PageLimit(ls.limits[i]))
  }

  /** The session in terms of keys. */
  ghost function AsSession(ls: ListSession, queue: string, f: DlqFilter): Session
    requires |ls.states| == |ls.cursors| == |ls.limits|
  {
    Session(
      seq(|ls.states|, i requires 0 <= i < |ls.states| => DlqKeys(ls.states[i], queue, f)),
      seq(|ls.states|, i requires 0 <= i < |ls.states| => CursorKey(ls, queue, f, i)),
      seq(|ls.states|, i requires 0 <= i < |ls.states| => PageLimit(ls.limits[i])),
      seq(|ls.states|, i requires 0 <= i < |ls.states| => KeysOf(ls, queue, f, i)))
  }

  ghost function CursorKey(ls: ListSession, queue: string, f: DlqFilter, i: nat): Option<Key>
    requires i < |ls.states| == |ls.cursors| == |ls.limits|
  {
    if i == 0 then None else LastKey(KeysOf(ls, queue, f, i - 1))
  }

  function LastKey(keys: seq<Key>): Option<Key> {
    if keys == [] then None else Some(keys[|keys| - 1])
  }

  /** A sequence threshold is a key threshold: the cursor's number is nobody else's. */
  lemma ThresholdIsKey(m: State, m': State, queue: string, f: DlqFilter, last: Key)
    requires Sequenced(m) && Persists(m, m') && last in DlqKeys(m, queue, f)
    ensures PastSeq(DlqKeys(m', queue, f), NatOf(last.at)) == Beyond(DlqKeys(m', queue, f), Some(last))
  {
    hide MatchesFilter;
    forall k | k in DlqKeys(m', queue, f) && k.at == last.at ensures k == last { }
    Trichotomy(last, last);
  }

  lemma StartIsAll(m: State, queue: string, f: DlqFilter)
    ensures PastSeq(DlqKeys(m, queue, f), 0) == Beyond(DlqKeys(m, queue, f), None)
  {
    hide MatchesFilter;
  }

  /** What is past a cursor's number is what is past the last key of the page before. */
  lemma BeyondAgrees(ls: ListSession, queue: string, f: DlqFilter, includeAttempts: bool, i: nat)
    requires IsListSession(ls, queue, f, includeAttempts) && i < |ls.states|
    ensures PastSeq(DlqKeys(ls.states[i], queue, f), AfterOf(ls.cursors[i]))
            == Beyond(DlqKeys(ls.states[i], queue, f), CursorKey(ls, queue, f, i))
  {
    hide DlqKeys, Sequenced, Persists, Beyond, PastSeq, KeysOf, IsListSession, AfterOf, CursorKey, Listed, MatchesIn;
    Lengths(ls, queue, f, includeAttempts);
    SessionSequenced(ls, queue, f, includeAttempts, i);
    NextCursorKey(ls, queue, f, i);
    if i == 0 {
      StartIsAll(ls.states[0], queue, f);
      StartCursor();
      FirstCursor(ls, queue, f, includeAttempts);
    } else {
      BeyondNext(ls, queue, f, includeAttempts, i);
    }
  }

  lemma BeyondNext(ls: ListSession, queue: string, f: DlqFilter, includeAttempts: bool, i: nat)
    requires IsListSession(ls, queue, f, includeAttempts) && 0 < i < |ls.states| == |ls.cursors| == |ls.limits|
    ensures var keys := KeysOf(ls, queue, f, i - 1);
            && keys != []
            && PastSeq(DlqKeys(ls.states[i], queue, f), AfterOf(ls.cursors[i]))
               == Beyond(DlqKeys(ls.states[i], queue, f), Some(keys[|keys| - 1]))
  {
    hide DlqKeys, Sequenced, Persists, Beyond, PastSeq, KeysOf, IsListSession, AfterOf, Listed, MatchesIn;
    SessionSequenced(ls, queue, f, includeAttempts, i);
    SessionSequenced(ls, queue, f, includeAttempts, i - 1);
    LastPage(ls, queue, f, includeAttempts, i - 1);
    CursorAgrees(ls, queue, f, includeAttempts, i);
    var keys := KeysOf(ls, queue, f, i - 1);
    ThresholdIsKey(ls.states[i - 1], ls.states[i], queue, f, keys[|keys| - 1]);
  }

  lemma FirstCursor(ls: ListSession, queue: string, f: DlqFilter, includeAttempts: bool)
    requires IsListSession(ls, queue, f, includeAttempts)
    ensures ls.cursors[0] == ""
  {
    hide Lists, AfterCalls;
  }

  /** Each page of a list session is the key page past the last key of the page before. */
  lemma PagesAgree(ls: ListSession, queue: string, f: DlqFilter, includeAttempts: bool, i: nat)
    requires IsListSession(ls, queue, f, includeAttempts) && i < |ls.states|
    ensures var view, cursor, limit := DlqKeys(ls.states[i], queue, f), CursorKey(ls, queue, f, i), PageLimit(ls.limits[i]);
            && KeysOf(ls, queue, f, i) == PageOf(view, cursor, limit)
            && (IsLast(view, cursor, limit) <==> i == |ls.states| - 1)
            && (i < |ls.states| - 1 ==> KeysOf(ls, queue, f, i) != [])
  {
    hide DlqKeys, Listing, AfterCalls, Beyond, PastSeq, Take, CursorKey, AfterOf, Lists, Sequenced;
    BeyondAgrees(ls, queue, f, includeAttempts, i);
    LastPage(ls, queue, f, includeAttempts, i);
  }

  lemma NextCursorKey(ls: ListSession, queue: string, f: DlqFilter, i: nat)
    requires i < |ls.states| == |ls.cursors| == |ls.limits|
    ensures i == 0 ==> CursorKey(ls, queue, f, i) == None
    ensures i > 0 && KeysOf(ls, queue, f, i - 1) != [] ==>
              CursorKey(ls, queue, f, i) == Some(KeysOf(ls, queue, f, i - 1)[|KeysOf(ls, queue, f, i - 1)| - 1])
  {
    hide KeysOf;
  }

  lemma StartCursor()
    ensures DecodeCursor("") == Some(0) && AfterOf("") == 0
  {
  }

  /** The next cursor decodes to the number of the last key of the page. */
  lemma CursorAgrees(ls: ListSession, queue: string, f: DlqFilter, includeAttempts: bool, i: nat)
    requires IsListSession(ls, queue, f, includeAttempts) && 0 < i < |ls.states|
    requires KeysOf(ls, queue, f, i - 1) != [] && Sequenced(ls.states[i - 1])
    ensures var keys := KeysOf(ls, queue, f, i - 1);
            var last := keys[|keys| - 1];
            && last in DlqKeys(ls.states[i - 1], queue, f)
            && AfterOf(ls.cursors[i]) == NatOf(last.at)
  {
    hide Listing, EncodeCursor, DecodeCursor, AfterCalls, DlqKeys, Sequenced, Lists, Listed;
    var m, keys := ls.states[i - 1], KeysOf(ls, queue, f, i - 1);
    var last := keys[|keys| - 1];
    ListedKeys(m, queue, f, AfterOf(ls.cursors[i - 1]));
    assert last in keys;
    SequenceBound(m, queue, f, last);
    CursorRoundTrip(NatOf(last.at));
    NextCursor(m, queue, f, includeAttempts, ls.cursors[i - 1], ls.limits[i - 1], ls.replies[i - 1]);
  }

  lemma NextCursor(m: State, queue: string, f: DlqFilter, includeAttempts: bool, cursor: string, limit: int, reply: ListReply)
    requires Lists(m, queue, f, includeAttempts, cursor, limit, reply) && reply.Page? && reply.next != ""
    ensures var keys := Take(Listed(m, queue, f, AfterOf(cursor)), PageLimit(limit));
            keys != [] && reply.next == EncodeCursor(NatOf(keys[|keys| - 1].at))
  {
    hide EncodeCursor, DecodeCursor, Listed;
  }

  lemma SequenceBound(m: State, queue: string, f: DlqFilter, k: Key)
    requires Sequenced(m) && k in DlqKeys(m, queue, f)
    ensures 1 <= k.at <= m.dlqSeq
  {
  }

  lemma LastPage(ls: ListSession, queue: string, f: DlqFilter, includeAttempts: bool, i: nat)
    requires IsListSession(ls, queue, f, includeAttempts) && i < |ls.states|
    ensures |Listed(ls.states[i], queue, f, AfterOf(ls.cursors[i]))| <= PageLimit(ls.limits[i]) <==> i == |ls.states| - 1
    ensures i < |ls.states| - 1 ==> KeysOf(ls, queue, f, i) != []
  {
    hide Listing, EncodeCursor, DecodeCursor, AfterCalls, DlqKeys;
  }

  lemma PageIdsAre(ls: ListSession, queue: string, f: DlqFilter, includeAttempts: bool, i: nat)
    requires IsListSession(ls, queue, f, includeAttempts) && i < |ls.states|
    ensures PageIds(ls.replies[i]) == IdsOf(KeysOf(ls, queue, f, i))
  {
    hide Listed, AfterCalls, Sequenced, Lists, AfterOf, Take, PageIds, IdsOf;
    assert ls.replies[i].Page?;
    ReplyIds(ls.states[i], queue, f, includeAttempts, ls.cursors[i], ls.limits[i], ls.replies[i]);
  }

  lemma ReplyIds(m: State, queue: string, f: DlqFilter, includeAttempts: bool, cursor: string, limit: int, reply: ListReply)
    requires Lists(m, queue, f, includeAttempts, cursor, limit, reply) && reply.Page?
    ensures PageIds(reply) == IdsOf(Take(Listed(m, queue, f, AfterOf(cursor)), PageLimit(limit)))
  {
    hide Listed, DecodeCursor, EncodeCursor;
  }

  /** The task is dead-lettered, matches, and keeps its place at every page of the session. */
  ghost predicate Stays(states: seq<State>, queue: string, f: DlqFilter, id: TaskId, seqNo: nat) {
    forall i :: 0 <= i < |states| ==> MatchesIn(states[i], queue, f, id) && states[i].tasks[id].dlqSeq == seqNo
  }

  /** Once for a task with a place in the queue, never for one without. */
  predicate AsPlaced(ids: seq<TaskId>, id: TaskId, seqNo: nat) {
    if seqNo > 0 then IdOnce(ids, id) else id !in ids
  }

  /** Listing to the end, with any calls in between: what is listed comes in order of arrival
      in the queue; a task that stays throughout is listed exactly once if it has a place, and
      never if it was submitted dead and has none. */
  lemma ListSessionComplete(ls: ListSession, queue: string, f: DlqFilter, includeAttempts: bool)
    requires IsListSession(ls, queue, f, includeAttempts)
    ensures |ls.states| == |ls.cursors| == |ls.limits|
    ensures Sorted(Flatten(AsSession(ls, queue, f).pages))
    ensures ListedIds(ls.replies) == IdsOf(Flatten(AsSession(ls, queue, f).pages))
    ensures forall id, seqNo :: Stays(ls.states, queue, f, id, seqNo) ==>
              AsPlaced(ListedIds(ls.replies), id, seqNo)
  {
    hide AsPlaced, IsWalk, IsListSession, AsSession, Flatten, Sorted, Stays, IdOnce, ListedIds, KeysListedOnce;
    Lengths(ls, queue, f, includeAttempts);
    IsKeySession(ls, queue, f, includeAttempts);
    SessionListsKeys(AsSession(ls, queue, f));
    AllListedIds(ls, queue, f, includeAttempts);
    forall id, seqNo | Stays(ls.states, queue, f, id, seqNo)
      ensures AsPlaced(ListedIds(ls.replies), id, seqNo)
    {
      StayingAsPlaced(ls, queue, f, id, seqNo);
    }
  }

  lemma AllListedIds(ls: ListSession, queue: string, f: DlqFilter, includeAttempts: bool)
    requires IsListSession(ls, queue, f, includeAttempts)
    requires |ls.states| == |ls.cursors| == |ls.limits| == |ls.replies|
    ensures ListedIds(ls.replies) == IdsOf(Flatten(AsSession(ls, queue, f).pages))
  {
    hide IsListSession, Flatten, ListedIds, KeysOf, DlqKeys, CursorKey, PageIds;
    var pages := AsSession(ls, queue, f).pages;
    forall i | 0 <= i < |pages| ensures PageIds(ls.replies[i]) == IdsOf(pages[i]) {
      PageIdsAre(ls, queue, f, includeAttempts, i);
    }
    ListedIdsAre(ls.replies, pages);
  }

  lemma StayingIdOnce(ls: ListSession, queue: string, f: DlqFilter, id: TaskId, seqNo: nat)
    requires |ls.states| == |ls.cursors| == |ls.limits| && Stays(ls.states, queue, f, id, seqNo) && ls.states != [] && seqNo > 0
    requires KeysListedOnce(AsSession(ls, queue, f))
    ensures IdOnce(IdsOf(Flatten(AsSession(ls, queue, f).pages)), id)
  {
    hide KeysOf, CursorKey, DlqKeys, Stays, Throughout, ExactlyOnce, IdsOf;
    var s := AsSession(ls, queue, f);
    var all, k := Flatten(s.pages), Key(seqNo, id);
    StayingKey(ls.states, queue, f, id, seqNo);
    forall i | 0 <= i < |s.views| ensures k in s.views[i] { }
    ThroughoutIf(s.views, k);
    forall other | other in all ensures other.id == id ==> other == k {
      var i :| 0 <= i < |s.pages| && other in s.pages[i];
      assert other in s.views[i];
    }
    OneIdOfKeys(all, k);
  }

  /** A task that stays is listed in every view under one key and no other. */
  lemma StayingKey(states: seq<State>, queue: string, f: DlqFilter, id: TaskId, seqNo: nat)
    requires Stays(states, queue, f, id, seqNo) && seqNo > 0
    ensures forall i :: 0 <= i < |states| ==> Key(seqNo, id) in DlqKeys(states[i], queue, f)
    ensures forall i, other :: 0 <= i < |states| && other in DlqKeys(states[i], queue, f) && other.id == id ==>
              other == Key(seqNo, id)
  {
    hide MatchesIn;
    forall i | 0 <= i < |states| ensures Key(seqNo, id) in DlqKeys(states[i], queue, f) {
      assert MatchesIn(states[i], queue, f, id);
      MatchIsThere(states[i], queue, f, id);
    }
  }

  lemma StayingAsPlaced(ls: ListSession, queue: string, f: DlqFilter, id: TaskId, seqNo: nat)
    requires |ls.states| == |ls.cursors| == |ls.limits| && Stays(ls.states, queue, f, id, seqNo) && ls.states != []
    requires KeysListedOnce(AsSession(ls, queue, f))
    ensures AsPlaced(IdsOf(Flatten(AsSession(ls, queue, f).pages)), id, seqNo)
  {
    hide AsSession, Flatten, IdsOf, IdOnce, Stays, KeysListedOnce;
    if seqNo > 0 {
      StayingIdOnce(ls, queue, f, id, seqNo);
    } else {
      UnplacedNotListed(ls, queue, f, id);
    }
  }

  lemma UnplacedNotListed(ls: ListSession, queue: string, f: DlqFilter, id: TaskId)
    requires |ls.states| == |ls.cursors| == |ls.limits| && Stays(ls.states, queue, f, id, 0)
    requires KeysListedOnce(AsSession(ls, queue, f))
    ensures id !in IdsOf(Flatten(AsSession(ls, queue, f).pages))
  {
    hide KeysOf, CursorKey, Throughout, ExactlyOnce, MatchesIn;
    var s := AsSession(ls, queue, f);
    var all := Flatten(s.pages);
    forall k | k in all ensures k.id != id {
      var i :| 0 <= i < |s.pages| && k in s.pages[i];
      assert k in s.views[i];
    }
    forall p | 0 <= p < |all| ensures IdsOf(all)[p] != id { assert all[p] in all; }
  }

  lemma MatchIsThere(m: State, queue: string, f: DlqFilter, id: TaskId)
    requires MatchesIn(m, queue, f, id)
    ensures id in m.tasks
  {
  }

  lemma Lengths(ls: ListSession, queue: string, f: DlqFilter, includeAttempts: bool)
    requires IsListSession(ls, queue, f, includeAttempts)
    ensures 0 < |ls.states| == |ls.limits| == |ls.cursors| == |ls.replies|
  {
  }

  lemma IsKeySession(ls: ListSession, queue: string, f: DlqFilter, includeAttempts: bool)
    requires IsListSession(ls, queue, f, includeAttempts)
    ensures |ls.states| == |ls.cursors| == |ls.limits| && IsSession(AsSession(ls, queue, f))
  {
    hide IsListSession, IsWalk, PageOf, IsLast, KeysOf, CursorKey, DlqKeys;
    Lengths(ls, queue, f, includeAttempts);
    var s := AsSession(ls, queue, f);
    forall i | 0 <= i < |s.pages|
      ensures s.limits[i] > 0
      ensures s.pages[i] == PageOf(s.views[i], s.cursors[i], s.limits[i])
      ensures IsLast(s.views[i], s.cursors[i], s.limits[i]) <==> i == |s.pages| - 1
    {
      PagesAgree(ls, queue, f, includeAttempts, i);
    }
    forall i | 0 <= i < |s.pages| - 1
      ensures s.pages[i] != [] && s.cursors[i + 1] == Some(s.pages[i][|s.pages[i]| - 1])
    {
      CursorFollows(ls, queue, f, includeAttempts, i);
    }
    NextCursorKey(ls, queue, f, 0);
  }

  lemma CursorFollows(ls: ListSession, queue: string, f: DlqFilter, includeAttempts: bool, i: nat)
    requires IsListSession(ls, queue, f, includeAttempts) && i < |ls.states| - 1 && |ls.states| == |ls.cursors| == |ls.limits|
    ensures var keys := KeysOf(ls, queue, f, i);
            keys != [] && CursorKey(ls, queue, f, i + 1) == Some(keys[|keys| - 1])
  {
    hide IsListSession, IsWalk, PageOf, IsLast, KeysOf, CursorKey, DlqKeys;
    PagesAgree(ls, queue, f, includeAttempts, i);
    NextCursorKey(ls, queue, f, i + 1);
  }
}
