/** The in-memory store stays within the storage contract: forgetting attempt numbers, the
    sequence counters and the start of lost claims maps each of its calls to a step of the
    abstract store. No well-formedness of the state is assumed. */
module MemRefines {
  import opened Spi
  import opened Ordering
  import opened MemModel
  import Decimal
  import L = Lifecycle

  function AbsRec(r: Record): L.Rec {
    L.Rec(L.NormTask(r.env), r.token, if r.env.status.Dead? then r.terminalAt else ZERO_TIME)
  }

  function Minted(n: nat): set<Token> {
    set k | 1 <= k <= n :: TokenOf(k)
  }

  function Abs(m: State): L.Store {
    L.Store(map id | id in m.tasks :: AbsRec(m.tasks[id]), Minted(m.claimSeq))
  }

  /** The grants of a claim as the contract sees them. */
  ghost function Grants(m': State, keys: seq<Key>): map<TaskId, Grant>
    requires forall k :: k in keys ==> k.id in m'.tasks
  {
    map id | id in KeyIds(keys) :: Grant(m'.tasks[id].token, L.NormTask(m'.tasks[id].env))
  }

  /** The store's next state and reply, for any call. */
  ghost function Apply(m: State, call: Call): (State, Reply) {
    match call
    case Enqueue(id, task) => AfterEnqueue(m, id, task)
    case ClaimDue(queue, limit, lease, now) =>
      TakenIds(m, queue, limit, now);
      var m' := AfterClaimDue(m, queue, limit, lease, now);
      (m', Claimed(Grants(m', Taken(m, queue, limit, now))))
    case ExtendLease(id, token, lease, now) => AfterExtendLease(m, id, token, lease, now)
    case Reschedule(id, token, a, nextAt) => AfterReschedule(m, id, token, a, nextAt)
    case Complete(id, token, a, now) => AfterComplete(m, id, token, a, now)
    case DeadLetter(id, token, a, now) => AfterDeadLetter(m, id, token, a, now)
    case Redrive(queue, sel, now) => AfterRedrive(m, queue, sel, now)
    case Purge(queue, sel) => AfterPurge(m, queue, sel)
    case PurgeSucceeded(queue, olderThan) => AfterPurgeSucceeded(m, queue, olderThan)
  }

  // ---------- tokens ----------

  lemma TokensDistinct(i: nat, j: nat)
    requires TokenOf(i) == TokenOf(j)
    ensures i == j
  {
    assert TokenOf(i)[3..] == Decimal.Format(i) && TokenOf(j)[3..] == Decimal.Format(j);
    Decimal.FormatInjective(i, j);
  }

  lemma TokenIsNew(n: nat, i: nat)
    requires i > n
    ensures TokenOf(i) !in Minted(n) && TokenOf(i) != ""
  {
    if TokenOf(i) in Minted(n) {
      var k :| 1 <= k <= n && TokenOf(k) == TokenOf(i);
      TokensDistinct(i, k);
    }
  }

  // ---------- single records ----------

  lemma NormAppend(t: Task, a: Attempt)
    ensures L.NormTask(AppendAttempt(t, a)) == L.Append(L.NormTask(t), a)
  {
    assert L.NormAll(t.attempts + [a]) == L.NormAll(t.attempts) + [L.Norm(a)];
  }

  lemma ClaimAbs(r: Record, seqNo: nat, lease: int, now: Time)
    requires !r.env.status.Dead?
    ensures AbsRec(Claim(r, seqNo, lease, now)) == L.Leased(AbsRec(r), TokenOf(seqNo), lease, now)
  {
    if r.env.status.InFlight? {
      NormAppend(r.env, LeaseExpiredAttempt(r, now));
      assert L.Norm(LeaseExpiredAttempt(r, now)) == L.Norm(L.ExpiredAttempt(now));
    }
  }

  lemma MatchesAbs(r: Record, f: DlqFilter)
    requires r.env.status.Dead?
    ensures MatchesFilter(AbsRec(r).task, AbsRec(r).deadAt, f) == Matches(r, f)
  {
    L.NormKeepsErrorType(r.env.attempts);
  }

  lemma SelectsAbs(m: State, queue: string, sel: Selector, id: TaskId)
    requires id in m.tasks
    ensures L.Selects(queue, sel, id, AbsRec(m.tasks[id])) <==> Picks(m, queue, sel, id) > 0
  {
    if m.tasks[id].env.status.Dead? && sel.filter.Some? {
      MatchesAbs(m.tasks[id], sel.filter.value);
    }
    assert id in sel.ids <==> multiset(sel.ids)[id] > 0;
  }

  lemma SelectionAbs(m: State, queue: string, sel: Selector)
    ensures L.Selection(Abs(m), queue, sel) == Selection(m, queue, sel)
  {
    forall id | id in m.tasks
      ensures id in L.Selection(Abs(m), queue, sel) <==> id in Selection(m, queue, sel)
    {
      SelectsAbs(m, queue, sel, id);
    }
  }

  // ---------- calls ----------

  lemma WriteAbs(m: State, id: TaskId, r: Record, dlqSeq: nat)
    requires id in m.tasks
    ensures Abs(Write(m, id, r).(dlqSeq := dlqSeq)) == Abs(m).(tasks := Abs(m).tasks[id := AbsRec(r)])
  {
    assert Abs(Write(m, id, r)).tasks == Abs(m).tasks[id := AbsRec(r)];
  }

  lemma FencedRefines(m: State, call: Call)
    requires L.Fenced(call)
    ensures L.FencedStep(Abs(m), call, Apply(m, call).1, Abs(Apply(m, call).0))
  {
    assert L.Holds(Abs(m), call.id, call.token) <==> Resolves(m, call.id, call.token);
    if Resolves(m, call.id, call.token) {
      var r := m.tasks[call.id];
      var m' := Apply(m, call).0;
      WriteAbs(m, call.id, m'.tasks[call.id], m'.dlqSeq);
      if !call.ExtendLease? {
        NormAppend(r.env, call.attempt);
      }
    }
  }

  lemma EnqueueRefines(m: State, id: TaskId, task: Task)
    ensures L.EnqueueStep(Abs(m), id, task, AfterEnqueue(m, id, task).1, Abs(AfterEnqueue(m, id, task).0))
  {
    if id !in m.tasks {
      var r := Record(task, "", ZERO_TIME, 0, ZERO_TIME);
      assert Abs(m.(tasks := m.tasks[id := r])).tasks == Abs(m).tasks[id := AbsRec(r)];
    }
  }

  lemma PickedDead(m: State, queue: string, sel: Selector, id: TaskId)
    requires id in m.tasks && Picks(m, queue, sel, id) > 0
    ensures m.tasks[id].env.status.Dead?
  {
  }

  lemma PickedOnce(m: State, queue: string, sel: Selector, id: TaskId)
    requires id in Selection(m, queue, sel) && AtMostOnce(sel.ids, id)
    ensures Picks(m, queue, sel, id) == 1
  {
    if |sel.ids| > 0 {
      CountAtMostOnce(sel.ids, id);
    }
  }

  lemma {:induction false} CountAtMostOnce(ids: seq<TaskId>, id: TaskId)
    ensures multiset(ids)[id] <= 1 <==> AtMostOnce(ids, id)
    decreases |ids|
  {
    if ids != [] {
      var n := |ids| - 1;
      var init, last := ids[..n], ids[n];
      assert ids == init + [last];
      CountAtMostOnce(init, id);
      if AtMostOnce(init, id) && !AtMostOnce(ids, id) {
        assert last == id && id in init;
      }
      if last == id && id in init {
        var i :| 0 <= i < n && ids[i] == id;
        assert ids[n] == id;
      }
      if !AtMostOnce(init, id) {
        var i, j :| 0 <= i < j < n && init[i] == id && init[j] == id;
        assert ids[i] == id && ids[j] == id;
      }
    }
  }

  /** A list is as long as the set of its members exactly when it repeats none. */
  lemma {:induction false} DistinctLength(s: seq<TaskId>)
    ensures |s| >= |set id | id in s|
    ensures |s| == |set id | id in s| <==> forall id :: id in s ==> multiset(s)[id] <= 1
    decreases |s|
  {
    if s != [] {
      var init, last := s[..|s| - 1], s[|s| - 1];
      assert s == init + [last];
      DistinctLength(init);
      var before := set id | id in init;
      assert last in init <==> multiset(init)[last] > 0;
      if last in init {
        assert (set id | id in s) == before;
        assert multiset(s)[last] > 1;
      } else {
        assert (set id | id in s) == before + {last};
        assert forall id :: id in s && id != last ==> multiset(s)[id] == multiset(init)[id];
        assert multiset(s)[last] == 1;
        assert forall id :: id in init ==> id in s && id != last;
      }
    }
  }

  /** The reply counts tasks, not picks, exactly when no selected task is named twice. */
  lemma CountAbs(m: State, queue: string, sel: Selector)
    ensures PickCount(m, queue, sel) >= |Selection(m, queue, sel)|
    ensures PickCount(m, queue, sel) == |Selection(m, queue, sel)|
            <==> forall id :: id in Selection(m, queue, sel) ==> AtMostOnce(sel.ids, id)
  {
    if |sel.ids| > 0 {
      var kept := KeepDead(m, queue, sel.ids);
      DistinctLength(kept);
      forall id
        ensures id in kept <==> id in Selection(m, queue, sel)
        ensures id in kept ==> (multiset(kept)[id] <= 1 <==> AtMostOnce(sel.ids, id))
      {
        assert id in sel.ids <==> multiset(sel.ids)[id] > 0;
        KeepDeadCounts(m, queue, sel.ids, id);
        CountAtMostOnce(sel.ids, id);
      }
      assert (set id | id in kept) == Selection(m, queue, sel);
    }
  }

  lemma RedriveRefines(m: State, queue: string, sel: Selector, now: Time)
    ensures L.RedriveStep(Abs(m), queue, sel, now, AfterRedrive(m, queue, sel, now).1, Abs(AfterRedrive(m, queue, sel, now).0))
  {
    hide Picks, AtMostOnce, PickCount, L.Selection, Selection, AbsRec, Redriven, L.Redriven;
    SelectionAbs(m, queue, sel);
    CountAbs(m, queue, sel);
    var m' := AfterRedrive(m, queue, sel, now).0;
    forall id | id in m.tasks ensures RedrivenAs(m, queue, sel, now, id, AbsRec(m'.tasks[id])) {
      RedrivenAbs(m, queue, sel, now, id);
    }
    PickedThere(m, queue, sel);
  }

  /** One record of a redrive, as the contract sees it. */
  predicate RedrivenAs(m: State, queue: string, sel: Selector, now: Time, id: TaskId, r: L.Rec)
    requires id in m.tasks
  {
    var before := AbsRec(m.tasks[id]);
    if id !in Selection(m, queue, sel) then r == before
    else
      && r == L.Redriven(before, r.task.redriveCount, now)
      && r.task.redriveCount > before.task.redriveCount
      && (AtMostOnce(sel.ids, id) ==> r.task.redriveCount == before.task.redriveCount + 1)
  }

  lemma RedrivenAbs(m: State, queue: string, sel: Selector, now: Time, id: TaskId)
    requires id in m.tasks
    ensures RedrivenAs(m, queue, sel, now, id, AbsRec(Redriven(m.tasks[id], Picks(m, queue, sel, id), now)))
  {
    hide Picks, AtMostOnce;
    if id in Selection(m, queue, sel) {
      PickedDead(m, queue, sel, id);
      if AtMostOnce(sel.ids, id) {
        PickedOnce(m, queue, sel, id);
      }
    }
  }

  lemma PickedThere(m: State, queue: string, sel: Selector)
    ensures forall id :: id in Selection(m, queue, sel) ==> id in m.tasks
  {
    hide Picks;
  }

  lemma PurgeRefines(m: State, queue: string, sel: Selector)
    ensures L.PurgeStep(Abs(m), queue, sel, AfterPurge(m, queue, sel).1, Abs(AfterPurge(m, queue, sel).0))
  {
    SelectionAbs(m, queue, sel);
    CountAbs(m, queue, sel);
    assert Abs(AfterPurge(m, queue, sel).0).tasks == Abs(m).tasks - Selection(m, queue, sel);
  }

  lemma SweepRefines(m: State, queue: string, olderThan: Time)
    ensures L.SweepStep(Abs(m), queue, AfterPurgeSucceeded(m, queue, olderThan).1,
                        Abs(AfterPurgeSucceeded(m, queue, olderThan).0))
  {
    hide AbsRec, Abs, Aged;
    var m' := AfterPurgeSucceeded(m, queue, olderThan).0;
    var gone := Aged(m, queue, olderThan);
    AgedAbs(m, queue, olderThan);
    SweptAbs(m, gone, m');
    SweptCount(Abs(m).tasks, gone, Abs(m').tasks);
  }

  lemma SweptAbs(m: State, gone: set<TaskId>, m': State)
    requires gone <= m.tasks.Keys && m' == m.(tasks := m.tasks - gone)
    ensures Abs(m).tasks.Keys == m.tasks.Keys && Abs(m').tasks.Keys == Abs(m).tasks.Keys - gone && Abs(m').minted == Abs(m).minted
    ensures forall id :: id in Abs(m').tasks ==> Abs(m').tasks[id] == Abs(m).tasks[id]
  {
    hide AbsRec;
  }

  lemma SweptCount(before: map<TaskId, L.Rec>, gone: set<TaskId>, after: map<TaskId, L.Rec>)
    requires gone <= before.Keys && after.Keys == before.Keys - gone
    ensures |after| == |before| - |gone|
  {
    assert |after| == |after.Keys| && |before| == |before.Keys|;
  }

  lemma AgedAbs(m: State, queue: string, olderThan: Time)
    ensures Aged(m, queue, olderThan) <= m.tasks.Keys
    ensures forall id :: id in Aged(m, queue, olderThan) ==>
              id in Abs(m).tasks && Abs(m).tasks[id].task.queue == queue && Abs(m).tasks[id].task.status.Succeeded?
  {
  }

  // ---------- claiming ----------

  /** The due keys are the contract's due set, one key per task. */
  lemma DueAbs(m: State, queue: string, now: Time)
    ensures forall id :: id in L.DueSet(Abs(m), queue, now) <==> Due(m, queue, now, id)
    ensures |DueKeys(m, queue, now)| == |L.DueSet(Abs(m), queue, now)|
  {
    var due := L.DueSet(Abs(m), queue, now);
    forall id ensures id in due <==> Due(m, queue, now, id) { }
    var at := map id | id in due :: DueAt(m.tasks[id]);
    ImageSize(due, at);
    assert (set id | id in due :: Key(at[id], id)) == DueKeys(m, queue, now);
  }

  lemma {:induction false} ImageSize(ids: set<TaskId>, at: map<TaskId, Time>)
    requires ids <= at.Keys
    ensures |set id | id in ids :: Key(at[id], id)| == |ids|
    decreases ids
  {
    var image := set id | id in ids :: Key(at[id], id);
    if id :| id in ids {
      ImageSize(ids - {id}, at);
      var rest := set other | other in ids - {id} :: Key(at[other], other);
      assert image == rest + {Key(at[id], id)};
      assert Key(at[id], id) !in rest;
    } else {
      assert image == {};
    }
  }

  /** ClaimDue, exactly: the first min(limit, due) due tasks in (next_attempt_at, id) order,
      in that order, each with the next token; an expired lease gains one LEASE_EXPIRED
      attempt; every other record is untouched. */
  lemma ClaimDueExact(m: State, queue: string, limit: int, lease: int, now: Time)
    ensures var keys := Taken(m, queue, limit, now);
            var m' := AfterClaimDue(m, queue, limit, lease, now);
            && |keys| == (if limit <= 0 then 0 else Min(limit, |L.DueSet(Abs(m), queue, now)|))
            && (forall i, j :: 0 <= i < j < |keys| ==> Less(keys[i], keys[j]) && keys[i].id != keys[j].id)
            && (forall k, id :: k in keys && Due(m, queue, now, id) && id !in KeyIds(keys)
                  ==> Less(k, Key(DueAt(m.tasks[id]), id)))
            && m'.tasks.Keys == m.tasks.Keys
            && (forall i :: 0 <= i < |keys| ==>
                  && Due(m, queue, now, keys[i].id)
                  && m'.tasks[keys[i].id] == Claim(m.tasks[keys[i].id], m.claimSeq + i + 1, lease, now))
            && (forall id :: id in m.tasks && id !in KeyIds(keys) ==> m'.tasks[id] == m.tasks[id])
  {
    hide Claim, ClaimMany, Taken, Listing, Abs, L.DueSet, Due;
    var keys := Taken(m, queue, limit, now);
    TakenIds(m, queue, limit, now);
    ClaimManyPointwise(m, keys, lease, now);
    DueAbs(m, queue, now);
    TakenFirst(m, queue, limit, now);
    forall i | 0 <= i < |keys| ensures Due(m, queue, now, keys[i].id) {
      assert keys[i] in keys;
    }
  }

  /** Every lease handed out is honoured, carries the task as it is now held, and runs from now. */
  lemma LeasesHonoured(m: State, queue: string, limit: int, lease: int, now: Time)
    ensures var m' := AfterClaimDue(m, queue, limit, lease, now);
            forall l :: l in Leases(m', Taken(m, queue, limit, now)) ==>
              && Resolves(m', l.id, l.token)
              && l.env == m'.tasks[l.id].env && l.env.leaseAt == Some(now + lease)
  {
    hide Taken, ClaimMany, KeyIds;
    var m', keys := AfterClaimDue(m, queue, limit, lease, now), Taken(m, queue, limit, now);
    TakenIds(m, queue, limit, now);
    ClaimManyPointwise(m, keys, lease, now);
    forall l | l in Leases(m', keys)
      ensures Resolves(m', l.id, l.token) && l.env == m'.tasks[l.id].env && l.env.leaseAt == Some(now + lease)
    {
      var i :| 0 <= i < |keys| && Leases(m', keys)[i] == l;
      assert keys[i] in keys;
    }
  }

  /** The same in the fields of the tasks: a claim takes tasks that have come due, and none that
      came due later, or at the same time with a greater id, than one it leaves. */
  lemma ClaimsLongestDue(m: State, queue: string, limit: int, now: Time, id: TaskId, other: TaskId)
    requires id in KeyIds(Taken(m, queue, limit, now))
    ensures id in m.tasks && m.tasks[id].env.queue == queue && IsDue(m.tasks[id].env, now)
    ensures (other in m.tasks && m.tasks[other].env.queue == queue && IsDue(m.tasks[other].env, now)
             && other !in KeyIds(Taken(m, queue, limit, now))
             && m.tasks[id].env.nextAt.Some? && m.tasks[other].env.nextAt.Some?) ==>
              var first, second := m.tasks[id].env.nextAt.value, m.tasks[other].env.nextAt.value;
              first < second || (first == second && StrLess(id, other))
  {
    hide Taken, IsDue, StrLess;
    TakenFirst(m, queue, limit, now);
    var i := IdIndex(Taken(m, queue, limit, now), id);
    assert Taken(m, queue, limit, now)[i] in Taken(m, queue, limit, now);
  }

  lemma TakenFirst(m: State, queue: string, limit: int, now: Time)
    ensures var keys := Taken(m, queue, limit, now);
            && |keys| == (if limit <= 0 then 0 else Min(limit, |DueKeys(m, queue, now)|))
            && (forall k, id :: k in keys && Due(m, queue, now, id) && id !in KeyIds(keys)
                  ==> Less(k, Key(DueAt(m.tasks[id]), id)))
  {
    hide Listing, IsDue, Less, DueKeys;
    if limit > 0 {
      var keys := Taken(m, queue, limit, now);
      forall k, id | k in keys && Due(m, queue, now, id) && id !in KeyIds(keys)
        ensures Less(k, Key(DueAt(m.tasks[id]), id))
      {
        DueIsKey(m, queue, now, id);
        PrefixFirst(DueKeys(m, queue, now), limit, k, Key(DueAt(m.tasks[id]), id));
      }
    }
  }

  lemma DueIsKey(m: State, queue: string, now: Time, id: TaskId)
    requires Due(m, queue, now, id)
    ensures Key(DueAt(m.tasks[id]), id) in DueKeys(m, queue, now)
  {
    hide IsDue;
  }

  /** What a prefix of a listing leaves out comes after what it holds. */
  lemma PrefixFirst(keys: set<Key>, n: nat, k: Key, other: Key)
    requires k in Take(Listing(keys), n) && other in keys && other !in Take(Listing(keys), n)
    ensures Less(k, other)
  {
    hide Listing, Less;
    var all := Listing(keys);
    var taken := Take(all, n);
    assert other in Elements(all);
    assert all == taken + all[|taken|..];
    assert other in all[|taken|..];
    var j :| |taken| <= j < |all| && all[j] == other;
    var i :| 0 <= i < |taken| && taken[i] == k;
    assert all[i] == k;
  }

  /** The facts about a claim that its refinement rests on, in terms of ids. */
  ghost predicate ClaimFacts(m: State, keys: seq<Key>, queue: string, limit: int, lease: int, now: Time, m': State) {
    && limit > 0
    && |keys| == Min(limit, |L.DueSet(Abs(m), queue, now)|)
    && DistinctIds(keys)
    && (forall k :: k in keys ==> Due(m, queue, now, k.id) && k.at == DueAt(m.tasks[k.id]))
    && (forall k, id :: k in keys && Due(m, queue, now, id) && id !in KeyIds(keys)
          ==> Less(k, Key(DueAt(m.tasks[id]), id)))
    && m'.tasks.Keys == m.tasks.Keys
    && m'.claimSeq == m.claimSeq + |keys|
    && (forall i :: 0 <= i < |keys| ==>
          m'.tasks[keys[i].id] == Claim(m.tasks[keys[i].id], m.claimSeq + i + 1, lease, now))
    && (forall id :: id in m.tasks && id !in KeyIds(keys) ==> m'.tasks[id] == m.tasks[id])
  }

  lemma IdIndex(keys: seq<Key>, id: TaskId) returns (i: nat)
    requires id in KeyIds(keys)
    ensures i < |keys| && keys[i].id == id
  {
    var k :| k in keys && k.id == id;
    i :| i < |keys| && keys[i] == k;
  }

  lemma KeysNamed(m: State, keys: seq<Key>, queue: string, limit: int, lease: int, now: Time, m': State)
    requires ClaimFacts(m, keys, queue, limit, lease, now, m')
    ensures forall k :: k in keys ==> k.id in m'.tasks
  {
  }

  lemma GrantTokens(m: State, keys: seq<Key>, queue: string, limit: int, lease: int, now: Time, m': State)
    requires ClaimFacts(m, keys, queue, limit, lease, now, m')
    ensures var g := Grants(m', keys);
            && (forall i :: 0 <= i < |keys| ==> keys[i].id in g && g[keys[i].id].token == TokenOf(m.claimSeq + i + 1))
            && (forall id :: id in g ==> g[id].token != "" && g[id].token !in Minted(m.claimSeq))
            && (forall id, other :: id in g && other in g && g[id].token == g[other].token ==> id == other)
  {
    hide ClaimFacts, Minted, TokenOf;
    KeysNamed(m, keys, queue, limit, lease, now, m');
    var g := Grants(m', keys);
    forall i | 0 <= i < |keys| ensures keys[i].id in g && g[keys[i].id].token == TokenOf(m.claimSeq + i + 1) {
      GrantTokenAt(m, keys, queue, limit, lease, now, m', i);
    }
    forall id | id in g ensures g[id].token != "" && g[id].token !in Minted(m.claimSeq) {
      var i := IdIndex(keys, id);
      TokenIsNew(m.claimSeq, m.claimSeq + i + 1);
    }
    forall id, other | id in g && other in g && g[id].token == g[other].token ensures id == other {
      var i := IdIndex(keys, id);
      var j := IdIndex(keys, other);
      TokensDistinct(m.claimSeq + i + 1, m.claimSeq + j + 1);
    }
  }

  lemma GrantTokenAt(m: State, keys: seq<Key>, queue: string, limit: int, lease: int, now: Time, m': State, i: nat)
    requires ClaimFacts(m, keys, queue, limit, lease, now, m') && i < |keys|
    ensures keys[i].id in Grants(m', keys) && Grants(m', keys)[keys[i].id].token == TokenOf(m.claimSeq + i + 1)
  {
    assert keys[i] in keys;
  }

  lemma MintedGrows(m: State, keys: seq<Key>, queue: string, limit: int, lease: int, now: Time, m': State)
    requires ClaimFacts(m, keys, queue, limit, lease, now, m')
    ensures Minted(m'.claimSeq) == Minted(m.claimSeq) + L.Tokens(Grants(m', keys))
  {
    hide TokenOf;
    GrantTokens(m, keys, queue, limit, lease, now, m');
    var g := Grants(m', keys);
    forall t | t in Minted(m'.claimSeq) ensures t in Minted(m.claimSeq) + L.Tokens(g) {
      var k :| 1 <= k <= m'.claimSeq && TokenOf(k) == t;
      if k > m.claimSeq {
        assert g[keys[k - m.claimSeq - 1].id].token == t;
      }
    }
    forall t | t in L.Tokens(g) ensures t in Minted(m'.claimSeq) {
      var id :| id in g && g[id].token == t;
      var i := IdIndex(keys, id);
      assert t == TokenOf(m.claimSeq + i + 1);
    }
  }

  lemma GrantsFair(m: State, keys: seq<Key>, queue: string, limit: int, lease: int, now: Time, m': State)
    requires ClaimFacts(m, keys, queue, limit, lease, now, m')
    ensures L.FairGrants(Abs(m), queue, limit, now, Grants(m', keys))
  {
    var s, g := Abs(m), Grants(m', keys);
    GrantTokens(m, keys, queue, limit, lease, now, m');
    DueAbs(m, queue, now);
    assert |g| == |keys| by {
      KeyIdsSize(keys);
      assert g.Keys == KeyIds(keys);
    }
    forall id, other | id in g && other in L.DueSet(s, queue, now) && other !in g
                       && s.tasks[id].task.nextAt.Some? && s.tasks[other].task.nextAt.Some?
      ensures s.tasks[id].task.nextAt.value <= s.tasks[other].task.nextAt.value
    {
      var i := IdIndex(keys, id);
      assert Less(keys[i], Key(DueAt(m.tasks[other]), other));
    }
  }

  lemma {:induction false} KeyIdsSize(keys: seq<Key>)
    requires DistinctIds(keys)
    ensures |KeyIds(keys)| == |keys|
    decreases |keys|
  {
    if keys != [] {
      var init, last := keys[..|keys| - 1], keys[|keys| - 1];
      assert keys == init + [last];
      KeyIdsSize(init);
      assert last.id !in KeyIds(init);
      assert KeyIds(keys) == KeyIds(init) + {last.id};
    }
  }

  lemma LeasesAbs(m: State, keys: seq<Key>, queue: string, limit: int, lease: int, now: Time, m': State, id: TaskId)
    requires ClaimFacts(m, keys, queue, limit, lease, now, m') && id in m.tasks
    ensures var g := Grants(m', keys);
            AbsRec(m'.tasks[id]) == if id in g then L.Leased(AbsRec(m.tasks[id]), g[id].token, lease, now)
                                    else AbsRec(m.tasks[id])
  {
    if id in KeyIds(keys) {
      var i := IdIndex(keys, id);
      assert keys[i] in keys;
      ClaimAbs(m.tasks[id], m.claimSeq + i + 1, lease, now);
    }
  }

  lemma ClaimRefines(m: State, queue: string, limit: int, lease: int, now: Time)
    ensures var next := Apply(m, ClaimDue(queue, limit, lease, now));
            L.ClaimStep(Abs(m), queue, limit, lease, now, next.1, Abs(next.0))
  {
    var keys := Taken(m, queue, limit, now);
    var m' := AfterClaimDue(m, queue, limit, lease, now);
    TakenIds(m, queue, limit, now);
    if limit > 0 {
      ClaimManyPointwise(m, keys, lease, now);
      ClaimDueExact(m, queue, limit, lease, now);
      assert ClaimFacts(m, keys, queue, limit, lease, now, m');
      ClaimFactsRefine(m, keys, queue, limit, lease, now, m');
    } else {
      assert Grants(m', keys) == map[];
    }
  }

  lemma ClaimFactsRefine(m: State, keys: seq<Key>, queue: string, limit: int, lease: int, now: Time, m': State)
    requires ClaimFacts(m, keys, queue, limit, lease, now, m')
    ensures L.ClaimStep(Abs(m), queue, limit, lease, now, Claimed(Grants(m', keys)), Abs(m'))
  {
    GrantsFair(m, keys, queue, limit, lease, now, m');
    MintedGrows(m, keys, queue, limit, lease, now, m');
    forall id | id in m.tasks
      ensures AbsRec(m'.tasks[id]) == if id in Grants(m', keys) then L.Leased(AbsRec(m.tasks[id]), Grants(m', keys)[id].token, lease, now)
                                      else AbsRec(m.tasks[id])
    {
      LeasesAbs(m, keys, queue, limit, lease, now, m', id);
    }
  }

  /** Every call of the in-memory store, in any state, is a step of the contract. */
  lemma MemStoreRefines(m: State, call: Call)
    ensures L.Step(Abs(m), call, Apply(m, call).1, Abs(Apply(m, call).0))
  {
    hide Apply, Abs, L.ClaimStep, L.RedriveStep, L.PurgeStep, L.SweepStep, L.EnqueueStep, L.FencedStep;
    match call
    case Enqueue(id, task) => EnqueueRefines(m, id, task); ApplyUnfolds(m, call);
    case ClaimDue(queue, limit, lease, now) => ClaimRefines(m, queue, limit, lease, now);
    case Redrive(queue, sel, now) => RedriveRefines(m, queue, sel, now); ApplyUnfolds(m, call);
    case Purge(queue, sel) => PurgeRefines(m, queue, sel); ApplyUnfolds(m, call);
    case PurgeSucceeded(queue, olderThan) => SweepRefines(m, queue, olderThan); ApplyUnfolds(m, call);
    case _ => FencedRefines(m, call);
  }

  lemma ApplyUnfolds(m: State, call: Call)
    ensures call.Enqueue? ==> Apply(m, call) == AfterEnqueue(m, call.id, call.task)
    ensures call.Redrive? ==> Apply(m, call) == AfterRedrive(m, call.queue, call.sel, call.now)
    ensures call.Purge? ==> Apply(m, call) == AfterPurge(m, call.queue, call.sel)
    ensures call.PurgeSucceeded? ==> Apply(m, call) == AfterPurgeSucceeded(m, call.queue, call.olderThan)
  {
  }
}
