/** Redrive and purge by filter, for a backend that cannot apply a filter itself: the server
    pages through the matching entries and then names them by id. */
module DlqServer {
  import opened Spi
  import opened Ordering
  import opened MemModel
  import opened Paging
  import opened MemPaging
  import MemStore
  import MR = MemRefines
  import P = Provenance

  const COLLECT_PAGE := 500

  /** The ids of the matching entries in order of arrival. */
  ghost function MatchingIds(m: State, queue: string, f: DlqFilter): seq<TaskId> {
    IdsOf(Listing(DlqKeys(m, queue, f)))
  }

  /** Past the n-th entry of a listing there is the rest of the listing. */
  lemma RestOfListing(m: State, queue: string, f: DlqFilter, n: nat)
    requires Sequenced(m)
    requires 0 < n <= |Listing(DlqKeys(m, queue, f))|
    ensures var all := Listing(DlqKeys(m, queue, f));
            Listed(m, queue, f, NatOf(all[n - 1].at)) == all[n..]
  {
    hide Listing, DlqKeys, Sequenced;
    var keys := DlqKeys(m, queue, f);
    var all := Listing(keys);
    var last := all[n - 1];
    assert forall k :: k in all <==> k in Elements(all);
    assert last in all;
    SequenceBound(m, queue, f, last);
    KeysApart(m, queue, f);
    SortedPrefix(all, n);
    Trichotomy(last, last);
    forall k | k in all[n..] ensures k in keys && k.at > last.at {
      var i :| n <= i < |all| && all[i] == k;
      assert k in all && Less(last, k);
    }
    forall k | k in keys && k.at > last.at ensures k in all[n..] {
      var i :| 0 <= i < |all| && all[i] == k;
      assert i < n - 1 ==> Less(k, last);
      assert all[n..][i - n] == k;
    }
    ListingUnique(Listed(m, queue, f, NatOf(last.at)), all[n..], PastSeq(keys, NatOf(last.at)));
  }

  lemma KeysApart(m: State, queue: string, f: DlqFilter)
    requires Sequenced(m)
    ensures forall j, k :: j in DlqKeys(m, queue, f) && k in DlqKeys(m, queue, f) && j.at == k.at ==> j == k
  {
    hide MatchesFilter;
  }

  lemma WholeListing(m: State, queue: string, f: DlqFilter)
    ensures Listed(m, queue, f, 0) == Listing(DlqKeys(m, queue, f))
  {
    hide MatchesIn, Listing;
    assert PastSeq(DlqKeys(m, queue, f), 0) == DlqKeys(m, queue, f);
  }

  /** One page of the walk: the entries from position n on, and a cursor for what follows. */
  lemma PageRead(m: State, queue: string, f: DlqFilter, cursor: string, n: nat, reply: ListReply)
    requires Sequenced(m) && m.dlqSeq < UINT64_LIMIT && DecodeCursor(cursor).Some?
    requires n <= |Listing(DlqKeys(m, queue, f))|
    requires Listed(m, queue, f, AfterOf(cursor)) == Listing(DlqKeys(m, queue, f))[n..]
    requires MemPaging.Lists(m, queue, f, false, cursor, COLLECT_PAGE, reply)
    ensures var all := Listing(DlqKeys(m, queue, f));
            && reply.Page? && n + |reply.entries| <= |all|
            && EntryIds(reply.entries) == IdsOf(all[n..n + |reply.entries|])
            && (reply.next == "" ==> n + |reply.entries| == |all|)
            && (reply.next != "" ==>
                  && |reply.entries| > 0 && DecodeCursor(reply.next).Some?
                  && Listed(m, queue, f, AfterOf(reply.next)) == all[n + |reply.entries|..])
  {
    hide Listing, DlqKeys, Sequenced, EncodeCursor, DecodeCursor, Listed;
    if reply.next != "" {
      var all, end := Listing(DlqKeys(m, queue, f)), n + |reply.entries|;
      var last := all[end - 1];
      assert last in all && last in Elements(all);
      SequenceBound(m, queue, f, last);
      CursorRoundTrip(NatOf(last.at));
      RestOfListing(m, queue, f, end);
    }
  }

  method AppendIds(ids: seq<TaskId>, entries: seq<Entry>) returns (longer: seq<TaskId>)
    ensures longer == ids + EntryIds(entries)
  {
    longer := ids;
    for i := 0 to |entries|
      invariant longer == ids + EntryIds(entries)[..i]
    {
      assert EntryIds(entries)[..i + 1] == EntryIds(entries)[..i] + [entries[i].id];
      longer := longer + [entries[i].id];
    }
    assert EntryIds(entries)[..|entries|] == EntryIds(entries);
  }

  /** Pages until the last page, on a store nobody else is using. */
  method CollectByFilter(store: MemStore.Store, queue: string, f: DlqFilter) returns (ids: seq<TaskId>)
    requires Sequenced(store.View()) && store.dlqSeq < UINT64_LIMIT
    ensures ids == MatchingIds(store.View(), queue, f)
  {
    hide Listing, DlqKeys, Sequenced, EncodeCursor, DecodeCursor, Listed;
    ghost var m := store.View();
    ghost var all := Listing(DlqKeys(m, queue, f));
    ghost var n := 0;
    ids := [];
    var cursor := "";
    var more := true;
    StartCursor();
    WholeListing(m, queue, f);
    while more
      invariant 0 <= n <= |all| && ids == IdsOf(all[..n])
      invariant more ==> DecodeCursor(cursor).Some? && Listed(m, queue, f, AfterOf(cursor)) == all[n..]
      invariant !more ==> n == |all|
      decreases more, |all| - n
    {
      var reply := store.DLQList(queue, f, false, cursor, COLLECT_PAGE);
      PageRead(m, queue, f, cursor, n, reply);
      ids := AppendIds(ids, reply.entries);
      assert all[..n + |reply.entries|] == all[..n] + all[n..n + |reply.entries|];
      IdsConcat(all[..n], all[n..n + |reply.entries|]);
      n := n + |reply.entries|;
      if reply.next == "" {
        more := false;
      } else {
        cursor := reply.next;
      }
    }
    assert all[..n] == all;
  }

  lemma NoneRepeated(m: State, queue: string, f: DlqFilter, id: TaskId)
    ensures id in MatchingIds(m, queue, f) <==> Arrived(m, queue, f, id)
    ensures AtMostOnce(MatchingIds(m, queue, f), id)
  {
    hide Arrived, Listing;
    var keys := Listing(DlqKeys(m, queue, f));
    var ids := IdsOf(keys);
    assert forall k :: k in keys <==> k in Elements(keys);
    if Arrived(m, queue, f, id) {
      ArrivedIsThere(m, queue, f, id);
      var k := Key(m.tasks[id].dlqSeq, id);
      assert k in keys;
      var i :| 0 <= i < |keys| && keys[i] == k;
      assert ids[i] == id;
    }
    if id in ids {
      var i :| 0 <= i < |ids| && ids[i] == id;
      assert keys[i] in keys;
    }
    forall i, j | 0 <= i < j < |ids| && ids[i] == id ensures ids[j] != id {
      assert keys[i] in keys && keys[j] in keys && Less(keys[i], keys[j]);
      Trichotomy(keys[i], keys[j]);
    }
  }

  lemma ArrivedIsThere(m: State, queue: string, f: DlqFilter, id: TaskId)
    requires Arrived(m, queue, f, id)
    ensures id in m.tasks
  {
  }

  /** Every matching dead record has a place in the queue. */
  ghost predicate AllArrived(m: State, queue: string, f: DlqFilter) {
    forall id :: MatchesIn(m, queue, f, id) ==> Arrived(m, queue, f, id)
  }

  /** Naming the listed entries by id picks what the filter picks among the arrived. */
  lemma PicksByIds(m: State, queue: string, f: DlqFilter, id: TaskId)
    ensures Picks(m, queue, Selector(MatchingIds(m, queue, f), None), id) == if Arrived(m, queue, f, id) then 1 else 0
    ensures Picks(m, queue, Selector([], Some(f)), id) == if MatchesIn(m, queue, f, id) then 1 else 0
  {
    hide MatchingIds, Matches;
    NoneRepeated(m, queue, f, id);
    MR.CountAtMostOnce(MatchingIds(m, queue, f), id);
  }

  lemma SameSelection(m: State, queue: string, f: DlqFilter)
    requires AllArrived(m, queue, f)
    ensures var byIds, byFilter := Selector(MatchingIds(m, queue, f), None), Selector([], Some(f));
            && (forall id :: Picks(m, queue, byIds, id) == Picks(m, queue, byFilter, id))
            && Selection(m, queue, byIds) == Selection(m, queue, byFilter)
            && PickCount(m, queue, byIds) == PickCount(m, queue, byFilter)
  {
    hide MatchingIds, Picks, PickCount, Matches;
    var byIds, byFilter := Selector(MatchingIds(m, queue, f), None), Selector([], Some(f));
    forall id ensures Picks(m, queue, byIds, id) == Picks(m, queue, byFilter, id) {
      PicksByIds(m, queue, f, id);
      assert MatchesIn(m, queue, f, id) ==> Arrived(m, queue, f, id);
    }
    forall id ensures AtMostOnce(byIds.ids, id) { NoneRepeated(m, queue, f, id); }
    MR.CountAbs(m, queue, byIds);
    MR.CountAbs(m, queue, byFilter);
  }

  lemma SameWhenArrived(m: State, queue: string, f: DlqFilter, now: Time)
    requires AllArrived(m, queue, f)
    ensures var byIds, byFilter := Selector(MatchingIds(m, queue, f), None), Selector([], Some(f));
            && AfterRedrive(m, queue, byIds, now) == AfterRedrive(m, queue, byFilter, now)
            && AfterPurge(m, queue, byIds) == AfterPurge(m, queue, byFilter)
  {
    hide MatchingIds, Picks, PickCount, Redriven, Selection, AllArrived;
    SameSelection(m, queue, f);
    assert AfterRedrive(m, queue, Selector(MatchingIds(m, queue, f), None), now).0.tasks
        == AfterRedrive(m, queue, Selector([], Some(f)), now).0.tasks;
  }

  /** A matching task without a place is missed by id and hit by filter. */
  lemma UnplacedMissed(m: State, queue: string, f: DlqFilter, now: Time, id: TaskId)
    requires MatchesIn(m, queue, f, id) && !Arrived(m, queue, f, id)
    ensures var byIds, byFilter := Selector(MatchingIds(m, queue, f), None), Selector([], Some(f));
            && AfterRedrive(m, queue, byIds, now) != AfterRedrive(m, queue, byFilter, now)
            && AfterPurge(m, queue, byIds) != AfterPurge(m, queue, byFilter)
  {
    hide MatchingIds, Picks, PickCount, Matches;
    PicksByIds(m, queue, f, id);
    var byIds, byFilter := Selector(MatchingIds(m, queue, f), None), Selector([], Some(f));
    assert AfterRedrive(m, queue, byIds, now).0.tasks[id].env.status.Dead?;
    assert AfterRedrive(m, queue, byFilter, now).0.tasks[id].env.status.Pending?;
    assert id in AfterPurge(m, queue, byIds).0.tasks && id !in AfterPurge(m, queue, byFilter).0.tasks;
  }

  /** By id after collecting, or by filter at once: the same store and the same count, exactly
      when every matching record has a place in the queue. */
  lemma ByIdsIsByFilter(m: State, queue: string, f: DlqFilter, now: Time)
    ensures var byIds, byFilter := Selector(MatchingIds(m, queue, f), None), Selector([], Some(f));
            && (AllArrived(m, queue, f) <==> AfterRedrive(m, queue, byIds, now) == AfterRedrive(m, queue, byFilter, now))
            && (AllArrived(m, queue, f) <==> AfterPurge(m, queue, byIds) == AfterPurge(m, queue, byFilter))
  {
    hide MatchingIds, AfterRedrive, AfterPurge, MatchesIn, Arrived;
    if AllArrived(m, queue, f) {
      SameWhenArrived(m, queue, f, now);
    } else {
      var id :| MatchesIn(m, queue, f, id) && !Arrived(m, queue, f, id);
      UnplacedMissed(m, queue, f, now, id);
    }
  }

  /** A task submitted already dead is such a record: no page lists it, yet a filter picks it. */
  lemma SubmittedDead(m: State, id: TaskId, t: Task, f: DlqFilter, now: Time)
    requires id !in m.tasks && t.status.Dead? && MatchesFilter(t, ZERO_TIME, f)
    ensures var m' := AfterEnqueue(m, id, t).0;
            && id !in MatchingIds(m', t.queue, f)
            && Picks(m', t.queue, Selector([], Some(f)), id) == 1
            && !AllArrived(m', t.queue, f)
  {
    hide MatchesFilter, MatchingIds;
    var m' := AfterEnqueue(m, id, t).0;
    NoneRepeated(m', t.queue, f, id);
    assert MatchesIn(m', t.queue, f, id) && !Arrived(m', t.queue, f, id);
  }

  // ---------- the mutating endpoints ----------

  datatype Action = RedriveAction | PurgeAction

  datatype Response = InvalidTask | Affected(count: int)

  /** What redriving or purging with a selector leaves behind, and the count. */
  function AfterAction(m: State, action: Action, queue: string, sel: Selector, now: Time): (State, Reply) {
    if action.RedriveAction? then AfterRedrive(m, queue, sel, now) else AfterPurge(m, queue, sel)
  }

  /** Chosen by a selector: a dead task of the queue that is named, or that the filter admits if
      none is named. */
  predicate Chosen(m: State, queue: string, sel: Selector, id: TaskId) {
    && id in m.tasks && m.tasks[id].env.status == Dead && m.tasks[id].env.queue == queue
    && if |sel.ids| > 0 then id in sel.ids
       else sel.filter.Some? && P.InFilter(m.tasks[id].env, m.tasks[id].terminalAt, sel.filter.value)
  }

  /** Redriving keeps every task and makes the chosen ones due now with a fresh budget and their
      history; purging removes the chosen ones; both leave the others alone. */
  lemma ActionDoes(m: State, action: Action, queue: string, sel: Selector, now: Time, id: TaskId)
    requires id in m.tasks
    ensures var m' := AfterAction(m, action, queue, sel, now).0;
            && (!Chosen(m, queue, sel, id) ==> id in m'.tasks && m'.tasks[id] == m.tasks[id])
            && (Chosen(m, queue, sel, id) ==>
                  if action.PurgeAction? then id !in m'.tasks
                  else
                    && id in m'.tasks
                    && var before, after := m.tasks[id].env, m'.tasks[id].env;
                       && after.status == Pending && after.nextAt == Some(now) && after.attemptCount == 0
                       && after.attempts == before.attempts && after.redriveCount > before.redriveCount)
    ensures AfterAction(m, action, queue, sel, now).0.tasks.Keys <= m.tasks.Keys
  {
    hide MatchesFilter, P.InFilter, PickCount;
    if sel.filter.Some? {
      P.FilterIs(m.tasks[id].env, m.tasks[id].terminalAt, sel.filter.value);
    }
  }

  /** The selector the store is handed: without push-down a filter becomes the listed ids. */
  ghost function Handed(m: State, pushdown: bool, queue: string, sel: Selector): Selector {
    if sel.filter.Some? && !pushdown then Selector(MatchingIds(m, queue, sel.filter.value), None) else sel
  }

  /** Ids together with a filter are refused; otherwise the request does what the selector
      says, with or without push-down, if every matching record has a place in the queue, and
      in any case what the listed ids say. */
  method HandleMutate(store: MemStore.Store, pushdown: bool, action: Action, queue: string, sel: Selector, now: Time) returns (response: Response)
    requires Sequenced(store.View()) && store.dlqSeq < UINT64_LIMIT
    modifies store
    ensures |sel.ids| > 0 && sel.filter.Some? ==> response == InvalidTask && store.View() == old(store.View())
    ensures !(|sel.ids| > 0 && sel.filter.Some?) ==>
              && response.Affected?
              && (store.View(), Count(response.count)) == AfterAction(old(store.View()), action, queue, Handed(old(store.View()), pushdown, queue, sel), now)
              && (pushdown || sel.filter.None? || AllArrived(old(store.View()), queue, sel.filter.value) ==>
                    (store.View(), Count(response.count)) == AfterAction(old(store.View()), action, queue, sel, now))
  {
    hide AfterRedrive, AfterPurge, MatchingIds, Sequenced, AllArrived;
    if |sel.ids| > 0 && sel.filter.Some? {
      return InvalidTask;
    }
    var chosen := sel;
    if sel.filter.Some? && !pushdown {
      var ids := CollectByFilter(store, queue, sel.filter.value);
      ByIdsIsByFilter(store.View(), queue, sel.filter.value, now);
      chosen := Selector(ids, None);
      assert sel == Selector([], Some(sel.filter.value));
    }
    var n;
    if action.RedriveAction? {
      n := store.Redrive(queue, chosen, now);
    } else {
      n := store.Purge(queue, chosen);
    }
    return Affected(n);
  }
}
