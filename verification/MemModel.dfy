/** The in-memory store as a state transformer: what each call makes of the `tasks` map and
    the two counters. The class in MemStore computes exactly this. */
module MemModel {
  import opened Spi
  import opened Ordering
  import Decimal

  /** `token` is "" unless the record was claimed; `dlqSeq` is 0 unless it is dead. */
  datatype Record = Record(env: Task, token: Token, claimedAt: Time, dlqSeq: nat, terminalAt: Time)

  datatype State = State(tasks: map<TaskId, Record>, claimSeq: nat, dlqSeq: nat)

  /** A task handed out by ClaimDue. */
  datatype Lease = Lease(id: TaskId, env: Task, token: Token)

  function TokenOf(seqNo: nat): Token { "ct-" + Decimal.Format(seqNo) }

  function AppendAttempt(t: Task, a: Attempt): Task {
    t.(attempts := t.attempts + [a], attemptCount := t.attemptCount + 1)
  }

  function LeaseExpiredAttempt(r: Record, now: Time): Attempt {
    Attempt(r.env.attemptCount + 1, r.claimedAt, Some(now), LeaseExpired,
            Some(Error(LEASE_EXPIRED_TYPE, LEASE_EXPIRED_MESSAGE)))
  }

  /** The record of a re-leased task: an expired lease is first counted as an attempt. */
  function Claim(r: Record, seqNo: nat, lease: int, now: Time): Record {
    var e := if r.env.status.InFlight? then AppendAttempt(r.env, LeaseExpiredAttempt(r, now)) else r.env;
    r.(env := e.(status := InFlight, leaseAt := Some(now + lease)), token := TokenOf(seqNo), claimedAt := now)
  }

  function ClaimOne(m: State, id: TaskId, lease: int, now: Time): State
    requires id in m.tasks
  {
    State(m.tasks[id := Claim(m.tasks[id], m.claimSeq + 1, lease, now)], m.claimSeq + 1, m.dlqSeq)
  }

  /** Claiming a list of tasks one after another. */
  function ClaimMany(m: State, keys: seq<Key>, lease: int, now: Time): (m': State)
    requires forall k :: k in keys ==> k.id in m.tasks
    ensures m'.tasks.Keys == m.tasks.Keys
    decreases |keys|
  {
    if keys == [] then m
    else ClaimOne(ClaimMany(m, keys[..|keys| - 1], lease, now), keys[|keys| - 1].id, lease, now)
  }

  function KeyIds(keys: seq<Key>): set<TaskId> { set k | k in keys :: k.id }

  /** Claims of distinct tasks do not disturb one another: the i-th gets the i-th next token. */
  ghost predicate ClaimedAre(m: State, keys: seq<Key>, lease: int, now: Time, m': State)
    requires forall k :: k in keys ==> k.id in m.tasks
  {
    && m'.claimSeq == m.claimSeq + |keys|
    && m'.dlqSeq == m.dlqSeq
    && m'.tasks.Keys == m.tasks.Keys
    && (forall i :: 0 <= i < |keys| ==>
          assert keys[i] in keys;
          m'.tasks[keys[i].id] == Claim(m.tasks[keys[i].id], m.claimSeq + i + 1, lease, now))
    && (forall id :: id in m.tasks && id !in KeyIds(keys) ==> m'.tasks[id] == m.tasks[id])
  }

  lemma ClaimOneMore(m: State, init: seq<Key>, last: Key, lease: int, now: Time, mid: State)
    requires forall k :: k in init + [last] ==> k.id in m.tasks
    requires forall k :: k in init ==> k.id in m.tasks && k.id != last.id
    requires ClaimedAre(m, init, lease, now, mid)
    ensures ClaimedAre(m, init + [last], lease, now, ClaimOne(mid, last.id, lease, now))
  {
    hide Claim;
    assert KeyIds(init + [last]) == KeyIds(init) + {last.id};
    assert forall i :: 0 <= i < |init| ==> init[i] in init;
  }

  lemma {:induction false} ClaimManyPointwise(m: State, keys: seq<Key>, lease: int, now: Time)
    requires forall k :: k in keys ==> k.id in m.tasks
    requires DistinctIds(keys)
    ensures ClaimedAre(m, keys, lease, now, ClaimMany(m, keys, lease, now))
    decreases |keys|
  {
    hide Claim, ClaimOne;
    if keys != [] {
      var init, last := keys[..|keys| - 1], keys[|keys| - 1];
      ClaimManyPointwise(m, init, lease, now);
      assert keys == init + [last];
      ClaimOneMore(m, init, last, lease, now, ClaimMany(m, init, lease, now));
    }
  }

  lemma ClaimManyNone(m: State, keys: seq<Key>, lease: int, now: Time)
    requires keys == []
    ensures ClaimMany(m, keys, lease, now) == m
  {
  }

  lemma ClaimManyStep(m: State, keys: seq<Key>, i: nat, lease: int, now: Time)
    requires i < |keys| && forall k :: k in keys ==> k.id in m.tasks
    requires DistinctIds(keys)
    ensures forall k :: k in keys[..i] ==> k.id in m.tasks
    ensures ClaimMany(m, keys[..i + 1], lease, now) == ClaimOne(ClaimMany(m, keys[..i], lease, now), keys[i].id, lease, now)
    ensures ClaimMany(m, keys[..i], lease, now).tasks[keys[i].id] == m.tasks[keys[i].id]
    ensures ClaimMany(m, keys[..i], lease, now).claimSeq == m.claimSeq + i
  {
    hide Claim, ClaimOne;
    ClaimManyPointwise(m, keys[..i], lease, now);
    assert keys[..i + 1][..i] == keys[..i];
    assert keys[i].id !in KeyIds(keys[..i]);
  }

  lemma ClaimManyLeases(m: State, keys: seq<Key>, lease: int, now: Time, claimed: seq<Lease>)
    requires forall k :: k in keys ==> k.id in m.tasks
    requires DistinctIds(keys)
    requires |claimed| == |keys|
    requires forall j :: 0 <= j < |keys| ==>
               claimed[j] == LeaseOf(keys[j].id, Claim(m.tasks[keys[j].id], m.claimSeq + j + 1, lease, now))
    ensures claimed == Leases(ClaimMany(m, keys, lease, now), keys)
  {
    hide Claim, ClaimMany, ClaimOne, LeaseOf;
    ClaimManyPointwise(m, keys, lease, now);
  }

  function DueAt(r: Record): Time { if r.env.nextAt.Some? then r.env.nextAt.value else ZERO_TIME }

  predicate Due(m: State, queue: string, now: Time, id: TaskId) {
    id in m.tasks && m.tasks[id].env.queue == queue && IsDue(m.tasks[id].env, now)
  }

  ghost function DueKeys(m: State, queue: string, now: Time): set<Key> {
    set id | id in m.tasks && Due(m, queue, now, id) :: Key(DueAt(m.tasks[id]), id)
  }

  /** What ClaimDue takes: the first `limit` due tasks in (next_attempt_at, id) order. */
  ghost function Taken(m: State, queue: string, limit: int, now: Time): (keys: seq<Key>)
    ensures Sorted(keys) && forall k :: k in keys ==> k in DueKeys(m, queue, now)
  {
    if limit <= 0 then [] else
      var all := Listing(DueKeys(m, queue, now));
      assert forall k :: k in all ==> k in Elements(all);
      Take(all, limit)
  }

  lemma TakenFromSorted(m: State, queue: string, limit: int, now: Time, due: seq<Key>)
    requires limit > 0
    requires Distinct(due)
    requires Elements(due) == DueKeys(m, queue, now)
    ensures Take(Sort(due), limit) == Taken(m, queue, limit, now)
  {
    SortIsListing(due);
  }

  lemma TakenIds(m: State, queue: string, limit: int, now: Time)
    ensures var keys := Taken(m, queue, limit, now);
            && (forall k :: k in keys ==> k.id in m.tasks)
            && DistinctIds(keys)
  {
    var keys := Taken(m, queue, limit, now);
    forall i, j | 0 <= i < j < |keys| ensures keys[i].id != keys[j].id {
      assert keys[i] in keys && keys[j] in keys;
      Trichotomy(keys[i], keys[i]);
    }
  }

  ghost function AfterClaimDue(m: State, queue: string, limit: int, lease: int, now: Time): State {
    TakenIds(m, queue, limit, now);
    ClaimMany(m, Taken(m, queue, limit, now), lease, now)
  }

  function LeaseOf(id: TaskId, r: Record): Lease { Lease(id, r.env, r.token) }

  /** The leases a list of claims returns, in the order they were made. */
  function Leases(m: State, keys: seq<Key>): (r: seq<Lease>)
    requires forall k :: k in keys ==> k.id in m.tasks
    ensures |r| == |keys|
  {
    seq(|keys|, i requires 0 <= i < |keys| => LeaseOf(keys[i].id, m.tasks[keys[i].id]))
  }

  predicate Resolves(m: State, id: TaskId, token: Token) {
    && id in m.tasks
    && m.tasks[id].env.status.InFlight?
    && m.tasks[id].token != ""
    && m.tasks[id].token == token
  }

  function Extended(r: Record, lease: int, now: Time): Record {
    r.(env := r.env.(leaseAt := Some(now + lease)))
  }

  function Rescheduled(r: Record, a: Attempt, nextAt: Time): Record {
    r.(env := AppendAttempt(r.env, a).(status := Pending, nextAt := Some(nextAt), leaseAt := None), token := "")
  }

  function Completed(r: Record, a: Attempt, now: Time): Record {
    r.(env := AppendAttempt(r.env, a).(status := Succeeded, nextAt := None, leaseAt := None),
       token := "", terminalAt := now)
  }

  function Buried(r: Record, a: Attempt, dlqSeq: nat, now: Time): Record {
    r.(env := AppendAttempt(r.env, a).(status := Dead, nextAt := None, leaseAt := None),
       token := "", dlqSeq := dlqSeq, terminalAt := now)
  }

  /** A record redriven `times` over: a repeated id in a selector redrives it repeatedly. */
  function Redriven(r: Record, times: nat, now: Time): Record {
    if times == 0 then r
    else
      r.(env := r.env.(status := Pending, attemptCount := 0, redriveCount := r.env.redriveCount + times,
                       nextAt := Some(now), leaseAt := None),
         dlqSeq := 0, terminalAt := ZERO_TIME)
  }

  function RedriveOnce(r: Record, now: Time): Record {
    r.(env := r.env.(status := Pending, attemptCount := 0, redriveCount := r.env.redriveCount + 1,
                     nextAt := Some(now), leaseAt := None),
       dlqSeq := 0, terminalAt := ZERO_TIME)
  }

  lemma RedrivenNever(r: Record, now: Time)
    ensures Redriven(r, 0, now) == r
  {
  }

  lemma RedrivenAgain(r: Record, k: nat, now: Time)
    ensures RedriveOnce(Redriven(r, k, now), now) == Redriven(r, k + 1, now)
  {
  }

  predicate DeadIn(m: State, queue: string, id: TaskId) {
    id in m.tasks && m.tasks[id].env.queue == queue && m.tasks[id].env.status.Dead?
  }

  predicate Matches(r: Record, f: DlqFilter) { MatchesFilter(r.env, r.terminalAt, f) }

  /** How often a selector picks a task. */
  function Picks(m: State, queue: string, sel: Selector, id: TaskId): nat {
    if !DeadIn(m, queue, id) then 0
    else if |sel.ids| > 0 then multiset(sel.ids)[id]
    else if sel.filter.Some? && Matches(m.tasks[id], sel.filter.value) then 1
    else 0
  }

  function KeepDead(m: State, queue: string, ids: seq<TaskId>): (r: seq<TaskId>)
    ensures forall id :: id in r <==> id in ids && DeadIn(m, queue, id)
  {
    if ids == [] then []
    else
      var rest := KeepDead(m, queue, ids[..|ids| - 1]);
      var last := ids[|ids| - 1];
      assert ids == ids[..|ids| - 1] + [last];
      if DeadIn(m, queue, last) then rest + [last] else rest
  }

  lemma {:induction false} KeepDeadCounts(m: State, queue: string, ids: seq<TaskId>, id: TaskId)
    ensures multiset(KeepDead(m, queue, ids))[id] == if DeadIn(m, queue, id) then multiset(ids)[id] else 0
    decreases |ids|
  {
    if ids != [] {
      KeepDeadCounts(m, queue, ids[..|ids| - 1], id);
      assert ids == ids[..|ids| - 1] + [ids[|ids| - 1]];
    }
  }

  predicate MatchesIn(m: State, queue: string, f: DlqFilter, id: TaskId) {
    DeadIn(m, queue, id) && Matches(m.tasks[id], f)
  }

  lemma PickedIds(m: State, queue: string, sel: Selector, selected: seq<TaskId>)
    requires forall id :: multiset(selected)[id] == Picks(m, queue, sel, id)
    ensures (set id | id in selected) == Selection(m, queue, sel)
  {
    forall id ensures id in selected <==> Picks(m, queue, sel, id) > 0 {
      assert id in selected <==> multiset(selected)[id] > 0;
    }
  }

  function Selection(m: State, queue: string, sel: Selector): set<TaskId> {
    set id | id in m.tasks && Picks(m, queue, sel, id) > 0
  }

  /** The number of picks, repetitions included. */
  function PickCount(m: State, queue: string, sel: Selector): nat {
    if |sel.ids| > 0 then |KeepDead(m, queue, sel.ids)| else |Selection(m, queue, sel)|
  }

  function AfterEnqueue(m: State, id: TaskId, task: Task): (State, Reply) {
    if id in m.tasks then (m, if m.tasks[id].env.queue != task.queue then IdConflict else Done)
    else (m.(tasks := m.tasks[id := Record(task, "", ZERO_TIME, 0, ZERO_TIME)]), Done)
  }

  function Write(m: State, id: TaskId, r: Record): State { m.(tasks := m.tasks[id := r]) }

  function AfterExtendLease(m: State, id: TaskId, token: Token, lease: int, now: Time): (State, Reply) {
    if !Resolves(m, id, token) then (m, StaleClaim)
    else (Write(m, id, Extended(m.tasks[id], lease, now)), Done)
  }

  function AfterReschedule(m: State, id: TaskId, token: Token, a: Attempt, nextAt: Time): (State, Reply) {
    if !Resolves(m, id, token) then (m, StaleClaim)
    else (Write(m, id, Rescheduled(m.tasks[id], a, nextAt)), Done)
  }

  function AfterComplete(m: State, id: TaskId, token: Token, a: Attempt, now: Time): (State, Reply) {
    if !Resolves(m, id, token) then (m, StaleClaim)
    else (Write(m, id, Completed(m.tasks[id], a, now)), Done)
  }

  function AfterDeadLetter(m: State, id: TaskId, token: Token, a: Attempt, now: Time): (State, Reply) {
    if !Resolves(m, id, token) then (m, StaleClaim)
    else (Write(m, id, Buried(m.tasks[id], a, m.dlqSeq + 1, now)).(dlqSeq := m.dlqSeq + 1), Done)
  }

  function AfterRedrive(m: State, queue: string, sel: Selector, now: Time): (State, Reply) {
    (m.(tasks := map id | id in m.tasks :: Redriven(m.tasks[id], Picks(m, queue, sel, id), now)),
     Count(PickCount(m, queue, sel)))
  }

  function AfterPurge(m: State, queue: string, sel: Selector): (State, Reply) {
    (m.(tasks := m.tasks - Selection(m, queue, sel)), Count(PickCount(m, queue, sel)))
  }

  function Aged(m: State, queue: string, olderThan: Time): set<TaskId> {
    set id | id in m.tasks && m.tasks[id].env.queue == queue && m.tasks[id].env.status.Succeeded?
             && m.tasks[id].terminalAt < olderThan
  }

  function AfterPurgeSucceeded(m: State, queue: string, olderThan: Time): (State, Reply) {
    (m.(tasks := m.tasks - Aged(m, queue, olderThan)), Count(|Aged(m, queue, olderThan)|))
  }
}
