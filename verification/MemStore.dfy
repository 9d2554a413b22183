/** The in-memory reference store: one map of records behind one lock, updated in place.
    Each method is proved to compute the transformation MemModel gives for its call, and the
    listing method the page MemPaging specifies. */
module MemStore {
  import opened Spi
  import opened Ordering
  import opened MemModel
  import opened Paging
  import opened MemPaging
  import L = Lifecycle
  import MR = MemRefines

  class Store {
    var tasks: map<TaskId, Record>
    var claimSeq: nat
    var dlqSeq: nat

    function View(): State
      reads this
    {
      State(tasks, claimSeq, dlqSeq)
    }

    constructor ()
      ensures View() == State(map[], 0, 0)
    {
      tasks := map[];
      claimSeq := 0;
      dlqSeq := 0;
    }

    method Enqueue(id: TaskId, task: Task) returns (reply: Reply)
      modifies this
      ensures (View(), reply) == AfterEnqueue(old(View()), id, task)
    {
      if id in tasks {
        if tasks[id].env.queue != task.queue {
          return IdConflict;
        }
        return Done;
      }
      tasks := tasks[id := Record(task, "", ZERO_TIME, 0, ZERO_TIME)];
      return Done;
    }

    /** One task by id, in any status, with its whole history. */
    method Get(id: TaskId) returns (found: Option<Task>)
      ensures found.Some? <==> id in MR.Abs(View()).tasks
      ensures found.Some? ==> L.NormTask(found.value) == MR.Abs(View()).tasks[id].task
      ensures found.Some? ==> found.value == tasks[id].env
    {
      if id !in tasks {
        return None;
      }
      return Some(tasks[id].env);
    }

    /** Collects the due keys of a queue; the map is visited in no particular order. */
    method CollectDue(queue: string, now: Time) returns (due: seq<Key>)
      ensures Distinct(due)
      ensures Elements(due) == DueKeys(View(), queue, now)
    {
      due := [];
      var rest := tasks.Keys;
      ghost var m := View();
      while rest != {}
        invariant rest <= tasks.Keys
        invariant Distinct(due)
        invariant forall k :: k in due <==>
                    k.id in tasks && k.id !in rest && Due(m, queue, now, k.id) && k == Key(DueAt(tasks[k.id]), k.id)
        decreases rest
      {
        var id :| id in rest;
        rest := rest - {id};
        if tasks[id].env.queue == queue && IsDue(tasks[id].env, now) {
          due := due + [Key(DueAt(tasks[id]), id)];
        }
      }
    }

    method ClaimDue(queue: string, limit: int, lease: int, now: Time) returns (claimed: seq<Lease>)
      modifies this
      ensures View() == AfterClaimDue(old(View()), queue, limit, lease, now)
      ensures claimed == Leases(View(), Taken(old(View()), queue, limit, now))
      ensures forall l :: l in claimed ==> Resolves(View(), l.id, l.token) && l.env == tasks[l.id].env
    {
      ghost var m := View();
      if limit <= 0 {
        return [];
      }
      MR.LeasesHonoured(m, queue, limit, lease, now);
      hide Taken, DueKeys, Elements, Sort, Take, ClaimMany, Leases;
      var due := CollectDue(queue, now);
      TakenFromSorted(m, queue, limit, now, due);
      due := Take(Sort(due), limit);
      TakenIds(m, queue, limit, now);
      claimed := ClaimAll(due, lease, now);
    }

    /** An expired lease is first counted as an attempt; then a fresh token and lease. */
    method ClaimNext(id: TaskId, lease: int, now: Time) returns (claimed: Lease)
      requires id in tasks
      modifies this
      ensures View() == ClaimOne(old(View()), id, lease, now)
      ensures claimed == LeaseOf(id, Claim(old(tasks)[id], old(claimSeq) + 1, lease, now))
    {
      hide TokenOf;
      var r := tasks[id];
      if r.env.status.InFlight? {
        r := r.(env := AppendAttempt(r.env, LeaseExpiredAttempt(r, now)));
      }
      claimSeq := claimSeq + 1;
      var token := TokenOf(claimSeq);
      r := r.(env := r.env.(status := InFlight, leaseAt := Some(now + lease)), token := token, claimedAt := now);
      tasks := tasks[id := r];
      return Lease(id, r.env, token);
    }

    /** The claiming loop: each task in turn gets the next token and a fresh lease. */
    method ClaimAll(due: seq<Key>, lease: int, now: Time) returns (claimed: seq<Lease>)
      requires forall k :: k in due ==> k.id in tasks
      requires DistinctIds(due)
      modifies this
      ensures View() == ClaimMany(old(View()), due, lease, now)
      ensures claimed == Leases(View(), due)
    {
      hide ClaimMany, Claim, LeaseOf, Leases;
      ghost var m := View();
      claimed := [];
      var i := 0;
      assert View() == ClaimMany(m, due[..0], lease, now) by { ClaimManyNone(m, due[..0], lease, now); }
      while i < |due|
        invariant 0 <= i <= |due|
        invariant View() == ClaimMany(m, due[..i], lease, now)
        invariant |claimed| == i
        invariant forall j :: 0 <= j < i ==> claimed[j] == LeaseOf(due[j].id, Claim(m.tasks[due[j].id], m.claimSeq + j + 1, lease, now))
      {
        ClaimManyStep(m, due, i, lease, now);
        var one := ClaimNext(due[i].id, lease, now);
        claimed := claimed + [one];
        i := i + 1;
      }
      assert due[..|due|] == due;
      ClaimManyLeases(m, due, lease, now, claimed);
    }

    method ExtendLease(id: TaskId, token: Token, lease: int, now: Time) returns (reply: Reply)
      modifies this
      ensures (View(), reply) == AfterExtendLease(old(View()), id, token, lease, now)
    {
      if !Resolves(View(), id, token) {
        return StaleClaim;
      }
      tasks := tasks[id := tasks[id].(env := tasks[id].env.(leaseAt := Some(now + lease)))];
      return Done;
    }

    method Reschedule(id: TaskId, token: Token, attempt: Attempt, nextAt: Time) returns (reply: Reply)
      modifies this
      ensures (View(), reply) == AfterReschedule(old(View()), id, token, attempt, nextAt)
    {
      if !Resolves(View(), id, token) {
        return StaleClaim;
      }
      var r := tasks[id];
      r := r.(env := AppendAttempt(r.env, attempt));
      r := r.(env := r.env.(status := Pending, nextAt := Some(nextAt), leaseAt := None), token := "");
      tasks := tasks[id := r];
      return Done;
    }

    method Complete(id: TaskId, token: Token, attempt: Attempt, now: Time) returns (reply: Reply)
      modifies this
      ensures (View(), reply) == AfterComplete(old(View()), id, token, attempt, now)
    {
      if !Resolves(View(), id, token) {
        return StaleClaim;
      }
      var r := tasks[id];
      r := r.(env := AppendAttempt(r.env, attempt));
      r := r.(env := r.env.(status := Succeeded, nextAt := None, leaseAt := None), token := "", terminalAt := now);
      tasks := tasks[id := r];
      return Done;
    }

    method DeadLetter(id: TaskId, token: Token, attempt: Attempt, now: Time) returns (reply: Reply)
      modifies this
      ensures (View(), reply) == AfterDeadLetter(old(View()), id, token, attempt, now)
    {
      if !Resolves(View(), id, token) {
        return StaleClaim;
      }
      var r := tasks[id];
      r := r.(env := AppendAttempt(r.env, attempt));
      dlqSeq := dlqSeq + 1;
      r := r.(env := r.env.(status := Dead, nextAt := None, leaseAt := None),
              token := "", dlqSeq := dlqSeq, terminalAt := now);
      tasks := tasks[id := r];
      return Done;
    }

    /** Collects the matching dead records past a sequence number, in no particular order. */
    method CollectDead(queue: string, f: DlqFilter, after: nat) returns (matched: seq<Key>)
      ensures Distinct(matched)
      ensures Elements(matched) == PastSeq(DlqKeys(View(), queue, f), after)
    {
      hide Matches;
      matched := [];
      var rest := tasks.Keys;
      ghost var m := View();
      while rest != {}
        invariant rest <= tasks.Keys
        invariant Distinct(matched)
        invariant forall k :: k in matched <==>
                    k.id in tasks && k.id !in rest && MatchesIn(m, queue, f, k.id) && k.at == tasks[k.id].dlqSeq && k.at > after
        decreases rest
      {
        var id :| id in rest;
        rest := rest - {id};
        if tasks[id].env.queue == queue && tasks[id].env.status.Dead? && tasks[id].dlqSeq > after && Matches(tasks[id], f) {
          matched := matched + [Key(tasks[id].dlqSeq, id)];
        }
      }
    }

    method Entries(keys: seq<Key>, includeAttempts: bool) returns (out: seq<Entry>)
      requires forall k :: k in keys ==> k.id in tasks
      ensures |out| == |keys|
      ensures forall i :: 0 <= i < |keys| ==> keys[i].id in tasks && out[i] == EntryOf(View(), keys[i], includeAttempts)
    {
      out := [];
      for i := 0 to |keys|
        invariant |out| == i
        invariant forall j :: 0 <= j < i ==> keys[j].id in tasks && out[j] == EntryOf(View(), keys[j], includeAttempts)
      {
        assert keys[i] in keys;
        var env := tasks[keys[i].id].env;
        if !includeAttempts {
          env := env.(attempts := []);
        }
        out := out + [Entry(keys[i].id, env)];
      }
    }

    method DLQList(queue: string, f: DlqFilter, includeAttempts: bool, cursor: string, limit: int) returns (reply: ListReply)
      ensures MemPaging.Lists(View(), queue, f, includeAttempts, cursor, limit, reply)
    {
      hide DecodeCursor, EncodeCursor, Listing, Sort, DlqKeys, PastSeq;
      var after := DecodeCursor(cursor);
      if after.None? {
        return StaleCursor;
      }
      var matched := CollectDead(queue, f, after.value);
      SortIsListing(matched);
      matched := Sort(matched);
      ListedKeys(View(), queue, f, after.value);
      ghost var all := matched;
      var next := "";
      if |matched| > PageLimit(limit) {
        matched := Take(matched, PageLimit(limit));
        next := EncodeCursor(NatOf(matched[|matched| - 1].at));
      }
      assert matched == Take(all, PageLimit(limit));
      assert forall k :: k in matched ==> k in all;
      var out := Entries(matched, includeAttempts);
      return Page(out, next);
    }

    /** The dead tasks a selector names, a repeated id repeatedly. */
    method SelectDead(queue: string, sel: Selector) returns (selected: seq<TaskId>)
      ensures |selected| == PickCount(View(), queue, sel)
      ensures forall id :: multiset(selected)[id] == Picks(View(), queue, sel, id)
    {
      if |sel.ids| > 0 {
        selected := SelectIds(queue, sel.ids);
      } else if sel.filter.Some? {
        selected := SelectMatching(queue, sel.filter.value);
        assert Selection(View(), queue, sel) == (set id | id in tasks && MatchesIn(View(), queue, sel.filter.value, id));
      } else {
        selected := [];
        assert Selection(View(), queue, sel) == {};
      }
    }

    method SelectIds(queue: string, ids: seq<TaskId>) returns (selected: seq<TaskId>)
      ensures selected == KeepDead(View(), queue, ids)
      ensures forall id :: multiset(selected)[id] == if DeadIn(View(), queue, id) then multiset(ids)[id] else 0
    {
      selected := [];
      var i := 0;
      while i < |ids|
        invariant 0 <= i <= |ids|
        invariant selected == KeepDead(View(), queue, ids[..i])
      {
        assert ids[..i + 1][..i] == ids[..i];
        var id := ids[i];
        if id in tasks && tasks[id].env.queue == queue && tasks[id].env.status.Dead? {
          selected := selected + [id];
        }
        i := i + 1;
      }
      assert ids[..|ids|] == ids;
      forall id ensures multiset(selected)[id] == if DeadIn(View(), queue, id) then multiset(ids)[id] else 0 {
        KeepDeadCounts(View(), queue, ids, id);
      }
    }

    method SelectMatching(queue: string, f: DlqFilter) returns (selected: seq<TaskId>)
      ensures |selected| == |set id | id in tasks && MatchesIn(View(), queue, f, id)|
      ensures forall id :: multiset(selected)[id] == if MatchesIn(View(), queue, f, id) then 1 else 0
    {
      hide Matches;
      selected := [];
      var rest := tasks.Keys;
      ghost var seen: set<TaskId> := {};
      while rest != {}
        invariant rest <= tasks.Keys
        invariant forall id :: id in seen <==> id in tasks && id !in rest && MatchesIn(View(), queue, f, id)
        invariant |selected| == |seen|
        invariant forall id :: multiset(selected)[id] == if id in seen then 1 else 0
        decreases rest
      {
        var id :| id in rest;
        rest := rest - {id};
        if tasks[id].env.queue == queue && tasks[id].env.status.Dead? && Matches(tasks[id], f) {
          selected := selected + [id];
          seen := seen + {id};
        }
      }
      assert seen == set id | id in tasks && MatchesIn(View(), queue, f, id);
    }

    method Redrive(queue: string, sel: Selector, now: Time) returns (n: int)
      modifies this
      ensures (View(), Count(n)) == AfterRedrive(old(View()), queue, sel, now)
    {
      ghost var m := View();
      var selected := SelectDead(queue, sel);
      forall id | id in selected ensures id in m.tasks { assert multiset(selected)[id] > 0; }
      RedriveAll(selected, now);
      assert tasks == AfterRedrive(m, queue, sel, now).0.tasks;
      return |selected|;
    }

    method RedriveAll(selected: seq<TaskId>, now: Time)
      requires forall id :: id in selected ==> id in tasks
      modifies this`tasks
      ensures tasks.Keys == old(tasks.Keys)
      ensures forall id :: id in tasks ==> tasks[id] == Redriven(old(tasks)[id], multiset(selected)[id], now)
    {
      hide Redriven;
      ghost var before := tasks;
      forall id | id in tasks ensures tasks[id] == Redriven(before[id], multiset(selected[..0])[id], now) {
        RedrivenNever(before[id], now);
      }
      var i := 0;
      while i < |selected|
        invariant 0 <= i <= |selected|
        invariant tasks.Keys == before.Keys
        invariant forall id :: id in tasks ==> tasks[id] == Redriven(before[id], multiset(selected[..i])[id], now)
      {
        var id := selected[i];
        assert selected[..i + 1] == selected[..i] + [id];
        RedrivenAgain(before[id], multiset(selected[..i])[id], now);
        tasks := tasks[id := RedriveOnce(tasks[id], now)];
        i := i + 1;
      }
      assert selected[..|selected|] == selected;
    }

    method Purge(queue: string, sel: Selector) returns (n: int)
      modifies this
      ensures (View(), Count(n)) == AfterPurge(old(View()), queue, sel)
    {
      ghost var m := View();
      var selected := SelectDead(queue, sel);
      var i := 0;
      while i < |selected|
        invariant 0 <= i <= |selected|
        invariant claimSeq == m.claimSeq && dlqSeq == m.dlqSeq
        invariant tasks == m.tasks - (set id | id in selected[..i])
      {
        tasks := tasks - {selected[i]};
        assert selected[..i + 1] == selected[..i] + [selected[i]];
        i := i + 1;
      }
      assert selected[..|selected|] == selected;
      PickedIds(m, queue, sel, selected);
      return |selected|;
    }

    method PurgeSucceeded(queue: string, olderThan: Time) returns (n: int)
      modifies this
      ensures (View(), Count(n)) == AfterPurgeSucceeded(old(View()), queue, olderThan)
    {
      ghost var m := View();
      n := 0;
      var rest := tasks.Keys;
      ghost var gone: set<TaskId> := {};
      while rest != {}
        invariant rest <= m.tasks.Keys && claimSeq == m.claimSeq && dlqSeq == m.dlqSeq
        invariant gone == set id | id in Aged(m, queue, olderThan) && id !in rest
        invariant tasks == m.tasks - gone && n == |gone|
        decreases rest
      {
        var id :| id in rest;
        rest := rest - {id};
        if tasks[id].env.queue == queue && tasks[id].env.status.Succeeded? && tasks[id].terminalAt < olderThan {
          tasks := tasks - {id};
          gone := gone + {id};
          n := n + 1;
        }
      }
      assert gone == Aged(m, queue, olderThan);
    }
  }
}
