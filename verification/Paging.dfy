/** Keyset paging over a set that changes between pages. A session asks for page after page,
    each time with the last key it was given; in between, keys may come and go at will. */
module Paging {
  import opened Spi
  import opened Ordering

  /** The keys of a view strictly past a cursor. */
  ghost function Beyond(view: set<Key>, after: Option<Key>): set<Key> {
    set k | k in view && (after.Some? ==> Less(after.value, k))
  }

  ghost function PageOf(view: set<Key>, after: Option<Key>, limit: nat): seq<Key> {
    Take(Listing(Beyond(view, after)), limit)
  }

  /** A page is the last when it holds everything past the cursor. */
  ghost predicate IsLast(view: set<Key>, after: Option<Key>, limit: nat) {
    |Beyond(view, after)| <= limit
  }

  /** One session: the views the pages were cut from, the cursors they were asked with, the
      page sizes and the pages themselves. It stops at the first page that is the last. */
  datatype Session = Session(views: seq<set<Key>>, cursors: seq<Option<Key>>, limits: seq<nat>, pages: seq<seq<Key>>)

  ghost predicate IsSession(s: Session) {
    && 0 < |s.views| == |s.cursors| == |s.limits| == |s.pages|
    && s.cursors[0] == None
    && (forall i :: 0 <= i < |s.pages| ==>
          && s.limits[i] > 0
          && s.pages[i] == PageOf(s.views[i], s.cursors[i], s.limits[i])
          && (IsLast(s.views[i], s.cursors[i], s.limits[i]) <==> i == |s.pages| - 1))
    && (forall i :: 0 <= i < |s.pages| - 1 ==>
          s.pages[i] != [] && s.cursors[i + 1] == Some(s.pages[i][|s.pages[i]| - 1]))
  }

  function Flatten(pages: seq<seq<Key>>): (r: seq<Key>)
    ensures forall k :: k in r <==> exists i :: 0 <= i < |pages| && k in pages[i]
    decreases |pages|
  {
    if pages == [] then []
    else
      var init, last := pages[..|pages| - 1], pages[|pages| - 1];
      assert pages == init + [last];
      assert forall k :: k in last ==> 0 <= |pages| - 1 < |pages| && k in pages[|pages| - 1];
      assert forall k, i :: 0 <= i < |init| && k in init[i] ==> k in pages[i];
      Flatten(init) + last
  }

  /** A page, taken apart. */
  lemma PageFacts(view: set<Key>, after: Option<Key>, limit: nat)
    requires limit > 0
    ensures var page := PageOf(view, after, limit);
            && Sorted(page)
            && (forall k :: k in page ==> k in Beyond(view, after))
            && (IsLast(view, after, limit) ==> forall k :: k in Beyond(view, after) ==> k in page)
            && (!IsLast(view, after, limit) ==> page != [])
            && (forall k, x :: k in Beyond(view, after) && k !in page && x in page ==> Less(x, k))
  {
    var all := Listing(Beyond(view, after));
    var page := PageOf(view, after, limit);
    assert forall k :: k in all <==> k in Elements(all);
    assert page == all[..|page|];
    SortedPrefix(all, |page|);
    assert all == all[..|page|] + all[|page|..];
    ListingLength(all, Beyond(view, after));
  }

  lemma NothingSorted()
    ensures Sorted([])
  {
  }

  lemma SortedConcat(a: seq<Key>, b: seq<Key>)
    requires Sorted(a) && Sorted(b) && forall j, k :: j in a && k in b ==> Less(j, k)
    ensures Sorted(a + b)
  {
    hide Less;
    forall i, j | 0 <= i < j < |a + b| ensures Less((a + b)[i], (a + b)[j]) {
      if i < |a| <= j {
        assert a[i] in a && b[j - |a|] in b;
      }
    }
  }

  /** After some pages: what was returned is in order and none of it is past the cursor. */
  lemma {:induction false} PrefixOrdered(s: Session, n: nat)
    requires IsSession(s) && n <= |s.pages|
    ensures Sorted(Flatten(s.pages[..n]))
    ensures n < |s.pages| ==>
              forall k :: k in Flatten(s.pages[..n]) ==>
                s.cursors[n].Some? && (k == s.cursors[n].value || Less(k, s.cursors[n].value))
    decreases n
  {
    hide Beyond, PageOf, IsLast, Less, Sorted;
    if n == 0 {
      NothingSorted();
    } else {
      PrefixOrdered(s, n - 1);
      var before, page, c := Flatten(s.pages[..n - 1]), s.pages[n - 1], s.cursors[n - 1];
      assert s.pages[..n][..n - 1] == s.pages[..n - 1];
      assert Flatten(s.pages[..n]) == before + page;
      PageFacts(s.views[n - 1], c, s.limits[n - 1]);
      PageAfterCursor(s.views[n - 1], c, page);
      forall k, x | k in before && x in page ensures Less(k, x) {
        if k != c.value {
          Transitive(k, c.value, x);
        }
      }
      SortedConcat(before, page);
      if n < |s.pages| {
        var last := page[|page| - 1];
        assert s.cursors[n] == Some(last);
        LastIsGreatest(page);
        forall k | k in before + page ensures k == last || Less(k, last) {
          assert last in page;
        }
      }
    }
  }

  lemma LastIsGreatest(page: seq<Key>)
    requires Sorted(page) && page != []
    ensures forall k :: k in page ==> k == page[|page| - 1] || Less(k, page[|page| - 1])
  {
    hide Less;
  }

  lemma PageAfterCursor(view: set<Key>, after: Option<Key>, page: seq<Key>)
    requires forall k :: k in page ==> k in Beyond(view, after)
    ensures forall k :: k in page ==> k in view && (after.Some? ==> Less(after.value, k))
  {
  }

  ghost predicate Throughout(views: seq<set<Key>>, k: Key) {
    forall i :: 0 <= i < |views| ==> k in views[i]
  }

  predicate ExactlyOnce(s: seq<Key>, k: Key) {
    exists p :: 0 <= p < |s| && s[p] == k && forall q :: 0 <= q < |s| && q != p ==> s[q] != k
  }

  /** A key of this view and the next, past this cursor and not on this page, is past the
      next cursor. */
  lemma AheadStep(view: set<Key>, after: Option<Key>, limit: nat, next: set<Key>, k: Key)
    requires limit > 0 && k in Beyond(view, after) && k in next && !IsLast(view, after, limit)
    requires k !in PageOf(view, after, limit)
    ensures var page := PageOf(view, after, limit);
            page != [] && k in Beyond(next, Some(page[|page| - 1]))
  {
    hide PageOf, IsLast;
    PageFacts(view, after, limit);
    var page := PageOf(view, after, limit);
    assert page[|page| - 1] in page;
  }

  /** A key that is in every view has been returned or is still past the cursor. */
  lemma {:induction false} StayingKeyAhead(s: Session, n: nat, k: Key)
    requires IsSession(s) && n < |s.pages| && Throughout(s.views, k)
    ensures k in Flatten(s.pages[..n]) || k in Beyond(s.views[n], s.cursors[n])
    decreases n
  {
    hide PageOf, IsLast, Beyond;
    if n == 0 {
      AllBeyondStart(s.views[0], k);
    } else {
      StayingKeyAhead(s, n - 1, k);
      assert s.pages[..n][..n - 1] == s.pages[..n - 1];
      assert Flatten(s.pages[..n]) == Flatten(s.pages[..n - 1]) + s.pages[n - 1];
      if k !in Flatten(s.pages[..n]) {
        AheadStep(s.views[n - 1], s.cursors[n - 1], s.limits[n - 1], s.views[n], k);
      }
    }
  }

  lemma AllBeyondStart(view: set<Key>, k: Key)
    requires k in view
    ensures k in Beyond(view, None)
  {
  }

  /** No skips, no duplicates: a finished session lists what it returned in strictly
      increasing order, every returned key was there when its page was cut, and every key
      present throughout is returned, exactly once. */
  lemma SessionComplete(s: Session)
    requires IsSession(s)
    ensures Sorted(Flatten(s.pages))
    ensures forall i, k :: 0 <= i < |s.pages| && k in s.pages[i] ==> k in s.views[i]
    ensures forall k :: Throughout(s.views, k) ==> ExactlyOnce(Flatten(s.pages), k)
  {
    hide PageOf, IsLast, Beyond, ExactlyOnce, Throughout, Sorted;
    var n := |s.pages| - 1;
    PrefixOrdered(s, n + 1);
    assert s.pages[..n + 1] == s.pages;
    forall i, k | 0 <= i < |s.pages| && k in s.pages[i] ensures k in s.views[i] {
      PageFacts(s.views[i], s.cursors[i], s.limits[i]);
      PageAfterCursor(s.views[i], s.cursors[i], s.pages[i]);
    }
    forall k | Throughout(s.views, k) ensures ExactlyOnce(Flatten(s.pages), k) {
      StayingKeyAhead(s, n, k);
      PageFacts(s.views[n], s.cursors[n], s.limits[n]);
      assert Flatten(s.pages) == Flatten(s.pages[..n]) + s.pages[n];
      OnceInSorted(Flatten(s.pages), k);
    }
  }

  lemma OnceInSorted(s: seq<Key>, k: Key)
    requires Sorted(s) && k in s
    ensures ExactlyOnce(s, k)
  {
    var p :| 0 <= p < |s| && s[p] == k;
    Trichotomy(k, k);
    forall q | 0 <= q < |s| && q != p ensures s[q] != k { }
  }

  // ---------- replies ----------

  const DEFAULT_PAGE_LIMIT: nat := 100

  datatype Entry = Entry(id: TaskId, task: Task)

  datatype ListReply = StaleCursor | Page(entries: seq<Entry>, next: string)

  function PageLimit(limit: int): (n: nat)
    ensures n > 0
  {
    if limit <= 0 then DEFAULT_PAGE_LIMIT else limit
  }

  /** The ids listed, page after page. */
  function ListedIds(replies: seq<ListReply>): seq<TaskId>
    decreases |replies|
  {
    if replies == [] then []
    else ListedIds(replies[..|replies| - 1]) + PageIds(replies[|replies| - 1])
  }

  function EntryIds(entries: seq<Entry>): (ids: seq<TaskId>)
    ensures |ids| == |entries| && forall i :: 0 <= i < |entries| ==> ids[i] == entries[i].id
  {
    seq(|entries|, i requires 0 <= i < |entries| => entries[i].id)
  }

  function PageIds(reply: ListReply): seq<TaskId> { if reply.StaleCursor? then [] else EntryIds(reply.entries) }

  function IdsOf(keys: seq<Key>): (ids: seq<TaskId>)
    ensures |ids| == |keys| && forall i :: 0 <= i < |keys| ==> ids[i] == keys[i].id
  {
    seq(|keys|, i requires 0 <= i < |keys| => keys[i].id)
  }

  predicate IdOnce(ids: seq<TaskId>, id: TaskId) {
    exists p :: 0 <= p < |ids| && ids[p] == id && forall q :: 0 <= q < |ids| && q != p ==> ids[q] != id
  }

  /** What a session of keys gives: no page invents a key, and a key that stays is listed once. */
  ghost predicate KeysListedOnce(s: Session) {
    && |s.views| == |s.pages|
    && (forall i, k :: 0 <= i < |s.pages| && k in s.pages[i] ==> k in s.views[i])
    && (forall k :: Throughout(s.views, k) ==> ExactlyOnce(Flatten(s.pages), k))
  }

  lemma SessionListsKeys(s: Session)
    requires IsSession(s)
    ensures Sorted(Flatten(s.pages)) && KeysListedOnce(s)
  {
    hide Flatten, Sorted, ExactlyOnce, Throughout;
    SessionComplete(s);
  }

  lemma ThroughoutIf(views: seq<set<Key>>, k: Key)
    requires forall i :: 0 <= i < |views| ==> k in views[i]
    ensures Throughout(views, k)
  {
  }

  lemma OneIdOfKeys(keys: seq<Key>, k: Key)
    requires ExactlyOnce(keys, k) && forall other :: other in keys && other.id == k.id ==> other == k
    ensures IdOnce(IdsOf(keys), k.id)
  {
    var p :| 0 <= p < |keys| && keys[p] == k && forall q :: 0 <= q < |keys| && q != p ==> keys[q] != k;
    var ids := IdsOf(keys);
    assert ids[p] == k.id;
    forall q | 0 <= q < |ids| && q != p ensures ids[q] != k.id {
      assert keys[q] in keys;
    }
  }

  /** If every page lists the ids of its keys, the session lists the ids of all its keys. */
  lemma {:induction false} ListedIdsAre(replies: seq<ListReply>, pages: seq<seq<Key>>)
    requires |replies| == |pages| && forall i :: 0 <= i < |pages| ==> PageIds(replies[i]) == IdsOf(pages[i])
    ensures ListedIds(replies) == IdsOf(Flatten(pages))
    decreases |pages|
  {
    hide PageIds;
    if pages != [] {
      var n := |pages| - 1;
      ListedIdsAre(replies[..n], pages[..n]);
      IdsConcat(Flatten(pages[..n]), pages[n]);
    }
  }

  lemma IdsConcat(a: seq<Key>, b: seq<Key>)
    ensures IdsOf(a + b) == IdsOf(a) + IdsOf(b)
  {
  }
}
