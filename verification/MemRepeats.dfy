/** A run in which the in-memory store numbers two attempts alike: submit, claim, dead-letter,
    redrive, claim again, and let the lease lapse. */
module MemRepeats {
  import opened Spi
  import opened Engine
  import B = Backoff
  import opened System
  import opened Backends
  import opened MemModel
  import L = Lifecycle
  import MR = MemRefines
  import P = Progress

  /** A store holding one task. */
  function Single(id: TaskId, r: Record, claimSeq: nat, dlqSeq: nat): State {
    State(map[id := r], claimSeq, dlqSeq)
  }

  lemma SubmitSingle(id: TaskId, t: Task)
    ensures MR.Apply(State(map[], 0, 0), Enqueue(id, t)).0 == Single(id, Record(t, "", ZERO_TIME, 0, ZERO_TIME), 0, 0)
  {
  }

  lemma OneDue(id: TaskId, r: Record, c: nat, d: nat, lease: int, now: Time)
    requires IsDue(r.env, now)
    ensures var m := Single(id, r, c, d);
            var keys := Taken(m, r.env.queue, 1, now);
            |keys| == 1 && keys[0].id == id
  {
    hide Taken, MR.Abs, L.DueSet, Claim, ClaimMany;
    var m := Single(id, r, c, d);
    MR.ClaimDueExact(m, r.env.queue, 1, lease, now);
    DueIsThere(id, r, c, d, now);
    var due := L.DueSet(MR.Abs(m), r.env.queue, now);
    assert {id} <= due;
    SubsetSize({id}, due);
  }

  lemma DueIsThere(id: TaskId, r: Record, c: nat, d: nat, now: Time)
    requires IsDue(r.env, now)
    ensures id in L.DueSet(MR.Abs(Single(id, r, c, d)), r.env.queue, now)
  {
  }

  lemma SubsetSize(a: set<TaskId>, b: set<TaskId>)
    requires a <= b
    ensures |a| <= |b|
  {
    assert b == a + (b - a);
  }

  /** Claiming the only task, which is due. */
  lemma ClaimSingle(id: TaskId, r: Record, c: nat, d: nat, lease: int, now: Time)
    requires IsDue(r.env, now)
    ensures var (m', reply) := MR.Apply(Single(id, r, c, d), ClaimDue(r.env.queue, 1, lease, now));
            && m' == Single(id, Claim(r, c + 1, lease, now), c + 1, d)
            && reply.Claimed? && id in reply.grants
            && reply.grants[id] == Grant(TokenOf(c + 1), L.NormTask(Claim(r, c + 1, lease, now).env))
  {
    hide Taken, Claim, ClaimMany, L.NormTask, TokenOf;
    var m := Single(id, r, c, d);
    OneDue(id, r, c, d, lease, now);
    var keys := Taken(m, r.env.queue, 1, now);
    TakenIds(m, r.env.queue, 1, now);
    ClaimManyPointwise(m, keys, lease, now);
    var m' := AfterClaimDue(m, r.env.queue, 1, lease, now);
    assert keys[0] in keys && id in KeyIds(keys);
    ClaimToken(r, c + 1, lease, now);
    assert m'.tasks == map[id := Claim(r, c + 1, lease, now)];
  }

  lemma ClaimToken(r: Record, seqNo: nat, lease: int, now: Time)
    ensures Claim(r, seqNo, lease, now).token == TokenOf(seqNo)
  {
  }

  lemma BurySingle(id: TaskId, r: Record, c: nat, d: nat, a: Attempt, now: Time)
    requires r.env.status.InFlight? && r.token != ""
    ensures MR.Apply(Single(id, r, c, d), DeadLetter(id, r.token, a, now)).0 == Single(id, Buried(r, a, d + 1, now), c, d + 1)
  {
    hide Buried;
    assert map[id := r][id := Buried(r, a, d + 1, now)] == map[id := Buried(r, a, d + 1, now)];
  }

  lemma RedriveSingle(id: TaskId, r: Record, c: nat, d: nat, now: Time)
    requires r.env.status.Dead?
    ensures MR.Apply(Single(id, r, c, d), Redrive(r.env.queue, Selector([id], None), now)).0 == Single(id, Redriven(r, 1, now), c, d)
  {
    hide Redriven;
    var m := Single(id, r, c, d);
    var sel := Selector([id], None);
    assert Picks(m, r.env.queue, sel, id) == 1;
    assert AfterRedrive(m, r.env.queue, sel, now).0.tasks == map[id := Redriven(r, 1, now)];
  }

  // ---------- the run ----------

  ghost predicate Reaches(max: Limits, r: MemRun, acts: seq<Act>, m: State) {
    IsMemRun(max, r) && r.acts == acts && r.states[|acts|].store == m
  }

  lemma Go(max: Limits, r: MemRun, acts: seq<Act>, m: State, act: Act, call: Call) returns (r': MemRun)
    requires Reaches(max, r, acts, m)
    requires Enabled(max, MR.Abs(m), r.states[|acts|].jobs, act) && CallOf(max, r.states[|acts|].jobs, act) == Some(call)
    ensures Reaches(max, r', acts + [act], MR.Apply(m, call).0)
    ensures MemNext(max, r.states[|acts|], act, MR.Apply(m, call).1, r'.states[|acts| + 1])
    ensures r'.states[|acts|] == r.states[|acts|]
  {
    hide MemNext, MR.Apply, Enabled, MR.Abs, CallOf;
    r' := P.RunsGoOn(max, r, act);
    var n := |acts|;
    assert r'.states[n] == r'.states[..|r.states|][n] == r.states[n];
    assert MemNext(max, r'.states[n], r'.acts[n], r'.replies[n], r'.states[n + 1]);
    MemStepCall(max, r'.states[n], act, r'.replies[n], r'.states[n + 1]);
  }

  /** A poll is always possible, and an operator may always redrive. */
  lemma Free(max: Limits, s: L.Store, jobs: map<Token, Job>, act: Act)
    requires act.Poll? || (act.Other? && act.call.Redrive?)
    ensures Enabled(max, s, jobs, act)
    ensures CallOf(max, jobs, act) == Some(if act.Poll? then ClaimDue(act.queue, act.limit, act.lease, act.now) else act.call)
  {
  }

  lemma PollOnly(max: Limits, r: MemRun, acts: seq<Act>, id: TaskId, rec: Record, c: nat, d: nat, lease: int, now: Time)
    returns (r': MemRun)
    requires Reaches(max, r, acts, Single(id, rec, c, d)) && IsDue(rec.env, now)
    ensures var act := Poll(rec.env.queue, 1, lease, now);
            && Reaches(max, r', acts + [act], Single(id, Claim(rec, c + 1, lease, now), c + 1, d))
            && TokenOf(c + 1) in r'.states[|acts| + 1].jobs
            && r'.states[|acts| + 1].jobs[TokenOf(c + 1)] == Job(id, L.NormTask(Claim(rec, c + 1, lease, now).env), false)
            && r'.states[|acts|] == r.states[|acts|]
  {
    hide MR.Apply, Claim, TokenOf, MR.Abs, HistStep, L.NormTask, Enabled, CallOf;
    var act := Poll(rec.env.queue, 1, lease, now);
    Free(max, MR.Abs(Single(id, rec, c, d)), r.states[|acts|].jobs, act);
    r' := Go(max, r, acts, Single(id, rec, c, d), act, ClaimDue(rec.env.queue, 1, lease, now));
    ClaimSingle(id, rec, c, d, lease, now);
  }

  function Submitted(t: Task): Record { Record(t, "", ZERO_TIME, 0, ZERO_TIME) }

  function Held(t: Task, lease: int, now: Time): Record { Claim(Submitted(t), 1, lease, now) }

  function Refused(e: Error, now: Time): Inputs { Inputs(Refuse(e), Ok, now, now, B.Ladder(1, 1.0, 1, 0.0), 0.0, now) }

  function Dead(t: Task, e: Error, lease: int, now: Time): Record {
    Buried(Held(t, lease, now), Attempt(1, now, Some(now), PermanentFailure, Some(e)), 1, now)
  }

  lemma Start(max: Limits, id: TaskId, t: Task, lease: int, now: Time) returns (r: MemRun)
    requires Fresh(t) && t.nextAt.value <= now
    ensures Reaches(max, r, [Submit(id, t), Poll(t.queue, 1, lease, now)], Single(id, Held(t, lease, now), 1, 0))
    ensures TokenOf(1) in r.states[2].jobs
    ensures r.states[2].jobs[TokenOf(1)] == Job(id, L.NormTask(Held(t, lease, now).env), false)
  {
    hide MR.Apply, Claim, TokenOf, MR.Abs, MemNext;
    var empty := MemRun([MemSys(State(map[], 0, 0), map[], EMPTY.hist)], [], []);
    var first := Go(max, empty, [], State(map[], 0, 0), Submit(id, t), Enqueue(id, t));
    SubmitSingle(id, t);
    assert [] + [Submit(id, t)] == [Submit(id, t)];
    r := PollOnly(max, first, [Submit(id, t)], id, Submitted(t), 0, 0, lease, now);
    assert [Submit(id, t)] + [Poll(t.queue, 1, lease, now)] == [Submit(id, t), Poll(t.queue, 1, lease, now)];
  }

  lemma HeldFacts(t: Task, lease: int, now: Time)
    requires Fresh(t)
    ensures var h := Held(t, lease, now);
            && h.env.status.InFlight? && h.token == TokenOf(1) != "" && h.env.attempts == [] && h.env.attemptCount == 0
            && L.NormTask(h.env).attempts == [] && L.NormTask(h.env).attemptCount == 0
  {
  }

  lemma Bury(max: Limits, id: TaskId, t: Task, e: Error, lease: int, now: Time) returns (r: MemRun)
    requires Fresh(t) && t.nextAt.value <= now
    ensures Reaches(max, r, [Submit(id, t), Poll(t.queue, 1, lease, now), Finish(TokenOf(1), Refused(e, now))],
                    Single(id, Dead(t, e, lease, now), 1, 1))
  {
    hide MR.Apply, Claim, TokenOf, MR.Abs, MemNext, L.NormTask, Buried;
    var start := Start(max, id, t, lease, now);
    HeldFacts(t, lease, now);
    var acts := [Submit(id, t), Poll(t.queue, 1, lease, now)];
    var h := Held(t, lease, now);
    var a := Attempt(1, now, Some(now), PermanentFailure, Some(e));
    var act := Finish(TokenOf(1), Refused(e, now));
    r := Go(max, start, acts, Single(id, h, 1, 0), act, DeadLetter(id, TokenOf(1), a, now));
    BurySingle(id, h, 1, 0, a, now);
    assert acts + [act] == [Submit(id, t), Poll(t.queue, 1, lease, now), Finish(TokenOf(1), Refused(e, now))];
  }

  function HeldAgain(t: Task, e: Error, lease: int, now: Time): Record {
    Claim(Redriven(Dead(t, e, lease, now), 1, now), 2, lease, now)
  }

  lemma HoldAgain(max: Limits, id: TaskId, t: Task, e: Error, lease: int, now: Time) returns (r: MemRun)
    requires Fresh(t) && t.nextAt.value <= now
    ensures Reaches(max, r, [Submit(id, t), Poll(t.queue, 1, lease, now), Finish(TokenOf(1), Refused(e, now)),
                             Other(Redrive(t.queue, Selector([id], None), now)), Poll(t.queue, 1, lease, now)],
                    Single(id, HeldAgain(t, e, lease, now), 2, 1))
  {
    hide MR.Apply, TokenOf, MR.Abs, MemNext, Enabled, CallOf;
    var dead := Dead(t, e, lease, now);
    var acts := [Submit(id, t), Poll(t.queue, 1, lease, now), Finish(TokenOf(1), Refused(e, now))];
    var buried := Bury(max, id, t, e, lease, now);
    var redrive := Other(Redrive(t.queue, Selector([id], None), now));
    Free(max, MR.Abs(Single(id, dead, 1, 1)), buried.states[3].jobs, redrive);
    var redriven := Go(max, buried, acts, Single(id, dead, 1, 1), redrive, redrive.call);
    RedriveSingle(id, dead, 1, 1, now);
    r := PollOnly(max, redriven, acts + [redrive], id, Redriven(dead, 1, now), 1, 1, lease, now);
  }

  /** The histories of the last three records, number by number. */
  lemma Numbers(t: Task, e: Error, lease: int, now: Time, later: Time, latest: Time)
    requires Fresh(t)
    ensures var held := HeldAgain(t, e, lease, now);
            var once := Claim(held, 3, lease, later);
            var twice := Claim(once, 4, lease, latest);
            && held.env.queue == once.env.queue == t.queue
            && held.env.status.InFlight? && held.env.leaseAt == Some(now + lease)
            && once.env.status.InFlight? && once.env.leaseAt == Some(later + lease)
            && |once.env.attempts| == 2 && once.env.attempts[0].no == once.env.attempts[1].no == 1
            && |twice.env.attempts| == 3 && twice.env.attempts[2].no == 2
  {
    hide TokenOf;
  }

  /** Any fresh task, refused by routing and redriven, whose next two leases lapse: the attempts
      are numbered 1, then 1 again, then 2. */
  lemma RedrivenTaskRepeats(max: Limits, id: TaskId, t: Task, e: Error, lease: int, now: Time, later: Time, latest: Time)
    returns (r: MemRun)
    requires Fresh(t) && t.nextAt.value <= now && now + lease <= later && later + lease <= latest
    ensures IsMemRun(max, r)
    ensures r.acts == [Submit(id, t), Poll(t.queue, 1, lease, now), Finish(TokenOf(1), Refused(e, now)),
                       Other(Redrive(t.queue, Selector([id], None), now)), Poll(t.queue, 1, lease, now),
                       Poll(t.queue, 1, lease, later), Poll(t.queue, 1, lease, latest)]
    ensures id in r.states[6].store.tasks && id in r.states[7].store.tasks
    ensures var attempts := r.states[6].store.tasks[id].env.attempts;
            |attempts| == 2 && attempts[0].no == attempts[1].no == 1 && RepeatsNumber(attempts)
    ensures var attempts := r.states[7].store.tasks[id].env.attempts;
            |attempts| == 3 && attempts[2].no == 2
  {
    hide TokenOf, MemNext, HeldAgain, Claim;
    var acts := [Submit(id, t), Poll(t.queue, 1, lease, now), Finish(TokenOf(1), Refused(e, now)),
                 Other(Redrive(t.queue, Selector([id], None), now)), Poll(t.queue, 1, lease, now)];
    var held := HeldAgain(t, e, lease, now);
    var once := Claim(held, 3, lease, later);
    Numbers(t, e, lease, now, later, latest);
    var start := HoldAgain(max, id, t, e, lease, now);
    var lapsed := PollOnly(max, start, acts, id, held, 2, 1, lease, later);
    r := PollOnly(max, lapsed, acts + [Poll(t.queue, 1, lease, later)], id, once, 3, 1, lease, latest);
  }
}
