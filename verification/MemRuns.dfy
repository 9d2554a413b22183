/** What holds of the in-memory store in every state of every run: the conditions the paging
    and dead-letter results ask for. */
module MemRuns {
  import opened Spi
  import opened Ordering
  import opened System
  import opened Backends
  import opened MemModel
  import opened Paging
  import opened MemPaging
  import D = DlqServer
  import MR = MemRefines

  ghost predicate AllPlaced(m: State) {
    forall id :: id in m.tasks && m.tasks[id].env.status.Dead? ==> Placed(m, id)
  }

  /** Burying places a record; nothing else makes one dead, except a submission. */
  lemma CallKeepsPlaces(m: State, call: Call)
    requires AllPlaced(m) && (call.Enqueue? ==> !call.task.status.Dead?)
    ensures AllPlaced(MR.Apply(m, call).0)
  {
    hide Taken, Picks, Selection, PickCount, MR.Grants, Aged, ClaimMany, Claim;
    match call
    case ClaimDue(queue, limit, lease, now) =>
      TakenIds(m, queue, limit, now);
      ClaimManyPointwise(m, Taken(m, queue, limit, now), lease, now);
      ClaimsKeepPlaces(m, Taken(m, queue, limit, now), lease, now, MR.Apply(m, call).0);
    case _ =>
  }

  lemma ClaimsKeepPlaces(m: State, keys: seq<Key>, lease: int, now: Time, m': State)
    requires AllPlaced(m) && (forall k :: k in keys ==> k.id in m.tasks) && ClaimedAre(m, keys, lease, now, m')
    ensures AllPlaced(m')
  {
    forall id | id in m'.tasks && m'.tasks[id].env.status.Dead? ensures Placed(m', id) {
      if id in KeyIds(keys) {
        var i := MR.IdIndex(keys, id);
      }
    }
  }

  lemma EmptyPlaced()
    ensures Sequenced(State(map[], 0, 0)) && AllPlaced(State(map[], 0, 0))
  {
  }

  /** Dead records of a reachable store all have a place in the queue, each its own. */
  lemma {:induction false} RunSequenced(max: Limits, r: MemRun, i: nat)
    requires IsMemRun(max, r) && i < |r.states|
    ensures Sequenced(r.states[i].store) && AllPlaced(r.states[i].store)
    decreases i
  {
    hide MemNext, MR.Apply, CallOf, Enabled, MR.Abs, Sequenced, AllPlaced;
    if i == 0 {
      EmptyPlaced();
    } else {
      RunSequenced(max, r, i - 1);
      var a, act := r.states[i - 1], r.acts[i - 1];
      MemStepCall(max, a, act, r.replies[i - 1], r.states[i]);
      var call := CallOf(max, a.jobs, act);
      if call.Some? {
        CallKeepsSequence(a.store, call.value);
        if call.value.Enqueue? {
          SubmitsFresh(max, MR.Abs(a.store), a.jobs, act);
        }
        CallKeepsPlaces(a.store, call.value);
      }
    }
  }

  /** Listing from any state of any run, with any calls in between: in order of arrival, and
      every task that stays is listed exactly once. */
  lemma RunListingComplete(max: Limits, r: MemRun, i: nat, ls: ListSession, queue: string, f: DlqFilter, includeAttempts: bool)
    requires IsMemRun(max, r) && i < |r.states|
    requires IsWalk(ls, queue, f, includeAttempts) && ls.states[0] == r.states[i].store
    ensures |ls.states| == |ls.cursors| == |ls.limits|
    ensures Ordering.Sorted(Flatten(AsSession(ls, queue, f).pages))
    ensures ListedIds(ls.replies) == IdsOf(Flatten(AsSession(ls, queue, f).pages))
    ensures forall id, seqNo :: Stays(ls.states, queue, f, id, seqNo) ==> IdOnce(ListedIds(ls.replies), id)
  {
    hide IsMemRun, IsWalk, Stays, IdOnce, AsSession, Flatten, ListedIds, IdsOf, Ordering.Sorted, Sequenced, AllPlaced;
    RunSequenced(max, r, i);
    WalkStarts(ls, queue, f, includeAttempts);
    ListSessionComplete(ls, queue, f, includeAttempts);
    forall id, seqNo | Stays(ls.states, queue, f, id, seqNo) ensures IdOnce(ListedIds(ls.replies), id) {
      StaysPlaced(ls.states, queue, f, id, seqNo);
    }
  }

  lemma WalkStarts(ls: ListSession, queue: string, f: DlqFilter, includeAttempts: bool)
    requires IsWalk(ls, queue, f, includeAttempts)
    ensures ls.states != []
  {
    hide MemPaging.Lists, AfterCalls;
  }

  lemma StaysPlaced(states: seq<State>, queue: string, f: DlqFilter, id: TaskId, seqNo: nat)
    requires states != [] && AllPlaced(states[0]) && Stays(states, queue, f, id, seqNo)
    ensures seqNo > 0
  {
    assert MatchesIn(states[0], queue, f, id);
  }

  /** In any state of any run, redriving or purging the collected ids is redriving or purging
      by the filter. */
  lemma RunByIdsIsByFilter(max: Limits, r: MemRun, i: nat, queue: string, f: DlqFilter, now: Time)
    requires IsMemRun(max, r) && i < |r.states|
    ensures var m := r.states[i].store;
            var byIds, byFilter := Selector(D.MatchingIds(m, queue, f), None), Selector([], Some(f));
            && AfterRedrive(m, queue, byIds, now) == AfterRedrive(m, queue, byFilter, now)
            && AfterPurge(m, queue, byIds) == AfterPurge(m, queue, byFilter)
  {
    hide IsMemRun, D.MatchingIds, AfterRedrive, AfterPurge, Matches;
    RunSequenced(max, r, i);
    D.ByIdsIsByFilter(r.states[i].store, queue, f, now);
  }
}
